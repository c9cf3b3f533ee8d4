/**
 Removing originals that no book needs
 (services/catalog-service/internal/catalog/reconciler.go).

 The object store and the catalog move on between any two calls of a pass. Before
 each call a turn of other people's actions is played, and the call may fail;
 turns are an input, so what holds for all inputs holds for all interleavings.
 Reconciler, store and uploads read one clock.
 */
module Reconciler {
  import opened Prelude

  /** A reference orders as its key does in the bucket. */
  type Ref = nat

  /** A row refers to its original until it is finalized, and stays as a tombstone. */
  datatype Row = Row(original: Option<Ref>, deleting: bool, erased: bool)

  /** `modified` remembers every object ever stored, `abandoned` those that no row
      will ever refer to again, `swept` those removed as orphans. */
  datatype World = World(
    clock: Time, objects: set<Ref>, modified: map<Ref, Time>, books: map<Id, Row>, abandoned: set<Ref>, swept: set<Ref>)

  datatype Action =
    | Elapse(time: nat)
    | Upload(ref: Ref)
    | Commit(book: Id, ref: Ref)
    | Discard(ref: Ref)
    | Delete(book: Id)
    | Erase(book: Id)
    | Mark(book: Id)
    | Finalize(book: Id)

  datatype Turn = Turn(actions: seq<Action>, fails: bool)

  function References(w: World): set<Ref> {
    set b | b in w.books && w.books[b].original.Some? :: w.books[b].original.value
  }

  /** References are random, so not drawn twice; an upload commits its row within
      the grace period of its object, or not at all; a row that is being deleted is
      finalized once its original is gone. */
  predicate Enabled(grace: nat, w: World, a: Action) {
    match a
    case Elapse(_) => true
    case Upload(ref) => ref !in w.modified
    case Commit(book, ref) =>
      && book !in w.books && ref in w.modified && ref !in w.abandoned && ref !in References(w)
      && w.clock - w.modified[ref] <= grace
    case Discard(ref) => ref in w.modified && ref !in References(w)
    case Delete(book) => book in w.books
    case Erase(book) => book in w.books && w.books[book].deleting && w.books[book].original.Some?
    case Mark(book) =>
      book in w.books && w.books[book].deleting && w.books[book].original.Some?
          && w.books[book].original.value !in w.objects
    case Finalize(book) => book in w.books && w.books[book].erased && w.books[book].original.Some?
  }

  function Act(grace: nat, w: World, a: Action): World
    requires Enabled(grace, w, a)
  {
    match a
    case Elapse(time) => w.(clock := w.clock + time)
    case Upload(ref) => w.(objects := w.objects + {ref}, modified := w.modified[ref := w.clock])
    case Commit(book, ref) => w.(books := w.books[book := Row(Some(ref), false, false)])
    case Discard(ref) => w.(objects := w.objects - {ref}, abandoned := w.abandoned + {ref})
    case Delete(book) => w.(books := w.books[book := w.books[book].(deleting := true)])
    case Erase(book) => w.(objects := w.objects - {w.books[book].original.value})
    case Mark(book) => w.(books := w.books[book := w.books[book].(erased := true)])
    case Finalize(book) =>
      w.(books := w.books[book := Row(None, true, true)], abandoned := w.abandoned + {w.books[book].original.value})
  }

  function Play(grace: nat, w: World, actions: seq<Action>): World
    decreases |actions|
  {
    if actions == [] then w
    else Play(grace, if Enabled(grace, w, actions[0]) then Act(grace, w, actions[0]) else w, actions[1..])
  }

  // ---------------------------------------------------------------------
  // What everyone keeps

  /** Every row that is not being deleted has its original. */
  predicate OriginalsKept(w: World) {
    forall b :: b in w.books && !w.books[b].deleting
        ==> w.books[b].original.Some? && w.books[b].original.value in w.objects
  }

  predicate Old(grace: nat, w: World, ref: Ref) {
    ref in w.modified && w.clock - w.modified[ref] > grace
  }

  predicate RowsOk(w: World) {
    && OriginalsKept(w)
    && (forall b :: b in w.books && w.books[b].erased
         ==> w.books[b].deleting && (w.books[b].original.Some? ==> w.books[b].original.value !in w.objects))
    && (forall b, c ::
          b in w.books && c in w.books && w.books[b].original == w.books[c].original && w.books[b].original.Some? ==>
          b == c)
  }

  /** An object that is gone was given up, swept when it was old and without a row,
      or removed for a row. */
  predicate ObjectsOk(grace: nat, w: World) {
    && w.objects <= w.modified.Keys
    && References(w) <= w.modified.Keys
    && (forall r :: r in w.modified ==> w.modified[r] <= w.clock)
    && (forall r :: r in w.swept ==> Old(grace, w, r) && r !in References(w))
    && (forall r :: r in w.modified && r !in w.objects ==> r in w.abandoned || r in w.swept || r in References(w))
  }

  predicate Inv(grace: nat, w: World) {
    RowsOk(w) && ObjectsOk(grace, w)
  }

  /** What holds from one moment to any later one. */
  ghost predicate Later(grace: nat, w: World, w': World) {
    && w.clock <= w'.clock
    && (forall r :: r in w.modified ==> r in w'.modified && w'.modified[r] == w.modified[r])
    && (forall r :: r in w'.objects && r in w.modified ==> r in w.objects)
    && (forall r :: r in References(w) && r in w'.objects && r in w.modified ==> r in References(w'))
    && (forall r :: Old(grace, w, r) && r !in References(w) ==> r !in References(w'))
    && w.books.Keys <= w'.books.Keys
    && (forall b :: b in w.books && b in w'.books ==>
          (w.books[b].deleting ==> w'.books[b].deleting)
              && (w'.books[b].original.Some? ==> w'.books[b].original == w.books[b].original))
    && (forall b :: b in w.books && w.books[b].original.Some? && b in w'.books && w'.books[b].original.None? ==>
          w.books[b].original.value !in w'.objects)
    && (forall b :: b in w.books && w.books[b].erased && b in w'.books ==> w'.books[b].erased)
    && w.swept <= w'.swept
  }

  lemma ReferencesAfter(grace: nat, w: World, a: Action)
    requires Inv(grace, w) && Enabled(grace, w, a)
    ensures References(Act(grace, w, a)) ==
            match a
            case Commit(_, ref) => References(w) + {ref}
            case Finalize(book) => References(w) - {w.books[book].original.value}
            case _ => References(w)
  {
    var w' := Act(grace, w, a);
    if a.Commit? {
      forall r | r in References(w) + {a.ref} ensures r in References(w') {
        if r in References(w) {
          var b :| b in w.books && w.books[b].original == Some(r);
          assert w'.books[b].original == Some(r);
        } else {
          assert w'.books[a.book].original == Some(r);
        }
      }
    } else if a.Finalize? {
      forall r | r in References(w) && r != w.books[a.book].original.value ensures r in References(w') {
        var b :| b in w.books && w.books[b].original == Some(r);
        assert w'.books[b].original == Some(r);
      }
    } else {
      forall r | r in References(w) ensures r in References(w') {
        var b :| b in w.books && w.books[b].original == Some(r);
        assert w'.books[b].original == Some(r);
      }
    }
  }

  lemma ActLater(grace: nat, w: World, a: Action)
    requires Inv(grace, w) && Enabled(grace, w, a)
    ensures Later(grace, w, Act(grace, w, a))
  {
    ReferencesAfter(grace, w, a);
    hide References;
  }

  lemma ActKeepsObjects(grace: nat, w: World, a: Action)
    requires Inv(grace, w) && Enabled(grace, w, a)
    ensures ObjectsOk(grace, Act(grace, w, a))
  {
    ReferencesAfter(grace, w, a);
    OriginalsReferenced(w);
    hide References;
  }

  lemma ActKeepsRows(grace: nat, w: World, a: Action)
    requires Inv(grace, w) && Enabled(grace, w, a)
    ensures RowsOk(Act(grace, w, a))
  {
    OriginalsReferenced(w);
    hide References;
  }

  lemma ActKeeps(grace: nat, w: World, a: Action)
    requires Inv(grace, w) && Enabled(grace, w, a)
    ensures Inv(grace, Act(grace, w, a))
  {
    ActKeepsObjects(grace, w, a);
    ActKeepsRows(grace, w, a);
  }

  lemma OriginalsReferenced(w: World)
    ensures forall b :: b in w.books && w.books[b].original.Some? ==> w.books[b].original.value in References(w)
  {
  }

  lemma LaterTransitive(grace: nat, w: World, v: World, u: World)
    requires Later(grace, w, v) && Later(grace, v, u)
    requires w.objects <= w.modified.Keys && References(w) <= w.modified.Keys && v.objects <= v.modified.Keys
    requires u.objects <= u.modified.Keys
    ensures Later(grace, w, u)
  {
    OriginalsReferenced(w);
    hide References;
  }

  lemma {:induction false} PlayKeeps(grace: nat, w: World, actions: seq<Action>)
    requires Inv(grace, w)
    ensures Inv(grace, Play(grace, w, actions)) && Later(grace, w, Play(grace, w, actions))
    decreases |actions|
  {
    hide References, Enabled;
    if actions != [] {
      var a := actions[0];
      var v := if Enabled(grace, w, a) then Act(grace, w, a) else w;
      if Enabled(grace, w, a) {
        ActKeeps(grace, w, a);
        ActLater(grace, w, a);
      }
      PlayKeeps(grace, v, actions[1..]);
      LaterTransitive(grace, w, v, Play(grace, v, actions[1..]));
    }
  }

  /** Removing an orphan, or the original of a row that is being deleted. */
  function Sweep(w: World, ref: Ref): World {
    w.(objects := w.objects - {ref}, swept := w.swept + {ref})
  }

  lemma SweepKeeps(grace: nat, w: World, ref: Ref)
    requires Inv(grace, w) && Old(grace, w, ref) && ref !in References(w)
    ensures Inv(grace, Sweep(w, ref)) && Later(grace, w, Sweep(w, ref))
  {
    assert References(Sweep(w, ref)) == References(w);
    OriginalsReferenced(w);
    hide References;
  }

  /** Only what has the form of a generated reference is ever taken for an orphan. */
  predicate SweptGenerated(generated: Ref -> bool, w: World) {
    forall r :: r in w.swept ==> generated(r)
  }

  lemma {:induction false} OthersDoNotSweep(grace: nat, w: World, actions: seq<Action>)
    ensures Play(grace, w, actions).swept == w.swept
    decreases |actions|
  {
    hide Enabled, References;
    if actions != [] {
      OthersDoNotSweep(grace, if Enabled(grace, w, actions[0]) then Act(grace, w, actions[0]) else w, actions[1..]);
    }
  }

  // ---------------------------------------------------------------------
  // What a pass works with

  datatype StoredObject = StoredObject(ref: Ref, lastModified: Time)

  datatype Listing = Listing(objects: seq<StoredObject>, next: Option<Ref>)

  datatype Pending = Pending(book: Id, ref: Ref)

  /** What can end a pass; the second is only reported at its end. */
  datatype PassError =
    | PendingLookupFailed | PendingDeletionFailed | PendingRecordFailed
    | ListingFailed | ReferenceLookupFailed | OrphanDeletionFailed

  predicate Behind(cursor: Option<Ref>, ref: Ref) {
    cursor.None? || cursor.value < ref
  }

  /** The next objects in the order of their keys; without a cursor, to the end. */
  predicate Lists(w: World, cursor: Option<Ref>, limit: nat, l: Listing) {
    && |l.objects| <= limit
    && (forall i :: 0 <= i < |l.objects| ==> IsNext(w, cursor, l.objects[i]))
    && (l.next.Some? ==> Behind(cursor, l.next.value))
    && (forall r :: r in w.objects && Behind(cursor, r) && (l.next.Some? ==> r <= l.next.value) ==> Holds(l.objects, r))
  }

  predicate IsNext(w: World, cursor: Option<Ref>, o: StoredObject) {
    o.ref in w.objects && Behind(cursor, o.ref) && o.ref in w.modified && w.modified[o.ref] == o.lastModified
  }

  predicate Holds(objects: seq<StoredObject>, ref: Ref) {
    exists i :: 0 <= i < |objects| && objects[i].ref == ref
  }

  /** The row is being deleted, and the reference is its original as long as there
      is such an object. */
  predicate Awaits(w: World, p: Pending) {
    && p.book in w.books && w.books[p.book].deleting
    && (w.books[p.book].original == Some(p.ref)
         || (w.books[p.book].original.None? && p.ref in w.modified && p.ref !in w.objects))
  }

  lemma AwaitsLater(grace: nat, w: World, v: World, p: Pending)
    requires Inv(grace, w) && Inv(grace, v) && Later(grace, w, v) && Awaits(w, p)
    ensures Awaits(v, p)
  {
    OriginalsReferenced(w);
    hide References;
  }

  /** The object is gone, and its row says so or is finalized. */
  predicate Finished(w: World, p: Pending) {
    && p.book in w.books && w.books[p.book].deleting
    && p.ref in w.modified && p.ref !in w.objects
    && (w.books[p.book].erased || w.books[p.book].original.None?)
  }

  lemma FinishedLater(grace: nat, w: World, v: World, p: Pending)
    requires Later(grace, w, v) && Finished(w, p)
    ensures Finished(v, p)
  {
    hide References;
  }

  lemma GoneLater(grace: nat, w: World, v: World, p: Pending)
    requires Inv(grace, w) && Inv(grace, v) && Later(grace, w, v) && Awaits(w, p) && p.ref !in w.objects
    ensures Awaits(v, p) && p.ref in v.modified && p.ref !in v.objects
  {
    AwaitsLater(grace, w, v, p);
    OriginalsReferenced(w);
    hide References;
  }

  lemma OldLater(grace: nat, w: World, v: World, ref: Ref)
    requires Later(grace, w, v) && Old(grace, w, ref)
    ensures Old(grace, v, ref)
    ensures ref !in References(w) ==> ref !in References(v)
  {
    hide References;
  }

  lemma LaterIsReflexive(grace: nat, w: World)
    ensures Later(grace, w, w)
  {
  }

  lemma LaterThrough(grace: nat, w: World, v: World, u: World)
    requires Inv(grace, w) && Inv(grace, v) && Inv(grace, u) && Later(grace, w, v) && Later(grace, v, u)
    ensures Later(grace, w, u)
  {
    hide Later;
    LaterTransitive(grace, w, v, u);
  }

  class Surroundings {
    const grace: nat
    const generated: Ref -> bool
    var world: World
    var turns: seq<Turn>

    ghost predicate Valid()
      reads this
    {
      Inv(grace, world) && SweptGenerated(generated, world)
    }

    constructor (grace: nat, generated: Ref -> bool, turns: seq<Turn>)
      ensures Valid() && this.grace == grace && this.turns == turns
    {
      this.grace, this.generated, this.turns := grace, generated, turns;
      world := World(0, {}, map[], map[], {}, {});
    }

    method Interfere() returns (fails: bool)
      requires Valid()
      modifies this
      ensures Valid() && Later(grace, old(world), world)
    {
      hide Inv, Later;
      LaterIsReflexive(grace, world);
      if turns == [] {
        return false;
      }
      var turn := turns[0];
      turns := turns[1..];
      PlayKeeps(grace, world, turn.actions);
      OthersDoNotSweep(grace, world, turn.actions);
      world := Play(grace, world, turn.actions);
      return turn.fails;
    }

    method Now() returns (now: Time)
      requires Valid()
      modifies this
      ensures Valid() && Later(grace, old(world), world) && now == world.clock
    {
      var _ := Interfere();
      return world.clock;
    }

    method PendingOriginalDeletions(limit: nat) returns (reply: Result<seq<Pending>, PassError>)
      requires Valid()
      modifies this
      ensures Valid() && Later(grace, old(world), world)
      ensures reply.Ok? ==> |reply.value| <= limit && forall p :: p in reply.value ==> Awaits(world, p)
    {
      var fails := Interfere();
      hide Inv, Later;
      if fails {
        return Err(PendingLookupFailed);
      }
      var pending: seq<Pending> := [];
      var todo: set<Id> := set b | b in world.books && world.books[b].deleting && !world.books[b].erased
          && world.books[b].original.Some?;
      while |pending| < limit && todo != {}
        invariant |pending| <= limit && forall p :: p in pending ==> Awaits(world, p)
        invariant forall b :: b in todo ==> b in world.books && world.books[b].deleting && world.books[b].original.Some?
        decreases |todo|
      {
        var b :| b in todo;
        todo := todo - {b};
        pending := pending + [Pending(b, world.books[b].original.value)];
      }
      return Ok(pending);
    }

    /** Deletes the original of a row that is being deleted. */
    method EraseOriginal(p: Pending) returns (ok: bool)
      requires Valid() && Awaits(world, p)
      modifies this
      ensures Valid() && Later(grace, old(world), world) && Awaits(world, p)
      ensures ok ==> p.ref !in world.objects
    {
      var fails := Interfere();
      AwaitsLater(grace, old(world), world, p);
      if fails {
        return false;
      }
      ghost var before := world;
      world := world.(objects := world.objects - {p.ref});
      ErasedKeeps(grace, before, p);
      hide Inv, Later;
      LaterThrough(grace, old(world), before, world);
      return true;
    }

    /** Tells the catalog that the object is gone. */
    method MarkOriginalDeleted(p: Pending) returns (ok: bool)
      requires Valid() && Awaits(world, p) && p.ref !in world.objects
      modifies this
      ensures Valid() && Later(grace, old(world), world)
      ensures ok ==> Finished(world, p)
    {
      var fails := Interfere();
      GoneLater(grace, old(world), world, p);
      hide Inv, Later;
      if fails {
        return false;
      }
      if Enabled(grace, world, Mark(p.book)) {
        ghost var before := world;
        ActKeeps(grace, world, Mark(p.book));
        ActLater(grace, world, Mark(p.book));
        world := Act(grace, world, Mark(p.book));
        LaterThrough(grace, old(world), before, world);
      }
      return true;
    }

    method ListCompleted(cursor: Option<Ref>, limit: nat) returns (reply: Result<Listing, PassError>)
      requires Valid() && 0 < limit
      modifies this
      ensures Valid() && Later(grace, old(world), world)
      ensures reply.Ok? ==> Lists(world, cursor, limit, reply.value)
    {
      var fails := Interfere();
      if fails {
        return Err(ListingFailed);
      }
      hide Later;
      var listing := ListFrom(world, cursor, limit);
      return Ok(listing);
    }

    method ReferencesExist(references: seq<Ref>) returns (reply: Result<set<Ref>, PassError>)
      requires Valid()
      modifies this
      ensures Valid() && Later(grace, old(world), world)
      ensures reply.Ok? ==> forall r :: r in references ==> (r in reply.value <==> r in References(world))
    {
      var fails := Interfere();
      hide Inv, Later;
      if fails {
        return Err(ReferenceLookupFailed);
      }
      return Ok(set r | r in references && r in References(world));
    }

    /** Deletes an object whose row was looked for and not found. */
    method DeleteOrphan(ref: Ref) returns (ok: bool)
      requires Valid() && generated(ref) && Old(grace, world, ref) && ref !in References(world)
      modifies this
      ensures Valid() && Later(grace, old(world), world)
      ensures ok ==> ref !in world.objects
    {
      var fails := Interfere();
      OldLater(grace, old(world), world, ref);
      hide Inv, Later;
      if fails {
        return false;
      }
      ghost var before := world;
      SweepKeeps(grace, world, ref);
      world := Sweep(world, ref);
      LaterThrough(grace, old(world), before, world);
      return true;
    }
  }

  lemma ErasedKeeps(grace: nat, w: World, p: Pending)
    requires Inv(grace, w) && Awaits(w, p)
    ensures var v := w.(objects := w.objects - {p.ref});
            Inv(grace, v) && Later(grace, w, v) && Awaits(v, p)
  {
    hide Inv, Later;
    if w.books[p.book].original == Some(p.ref) {
      ActKeeps(grace, w, Erase(p.book));
      ActLater(grace, w, Erase(p.book));
    } else {
      LaterIsReflexive(grace, w);
      assert w.objects - {p.ref} == w.objects;
      assert w.(objects := w.objects - {p.ref}) == w;
    }
  }

  method ListFrom(w: World, cursor: Option<Ref>, limit: nat) returns (listing: Listing)
    requires 0 < limit && w.objects <= w.modified.Keys
    ensures Lists(w, cursor, limit, listing)
  {
    var objects: seq<StoredObject> := [];
    var left := set r | r in w.objects && Behind(cursor, r);
    while left != {}
      invariant |objects| < limit
      invariant forall i :: 0 <= i < |objects| ==> IsNext(w, cursor, objects[i])
      invariant forall r :: r in left ==> r in w.objects && Behind(cursor, r)
      invariant forall r :: r in w.objects && Behind(cursor, r) ==> r in left || Holds(objects, r)
      decreases |left|
    {
      var r := Least(left);
      ghost var before := objects;
      objects := objects + [StoredObject(r, w.modified[r])];
      forall q ensures Holds(objects, q) <==> Holds(before, q) || q == r {
        StillHolds(before, objects[|before|], q);
      }
      left := left - {r};
      if |objects| == limit {
        return Listing(objects, Some(r));
      }
    }
    return Listing(objects, None);
  }

  method Least(s: set<Ref>) returns (least: Ref)
    requires s != {}
    ensures least in s && forall r :: r in s ==> least <= r
  {
    least :| least in s;
    var rest := s - {least};
    while rest != {}
      invariant rest <= s && least in s && forall r :: r in s && r !in rest ==> least <= r
      decreases |rest|
    {
      var r :| r in rest;
      rest := rest - {r};
      if r < least {
        least := r;
      }
    }
  }

  lemma StillHolds(objects: seq<StoredObject>, o: StoredObject, ref: Ref)
    ensures Holds(objects + [o], ref) <==> Holds(objects, ref) || o.ref == ref
  {
    if Holds(objects, ref) {
      var i :| 0 <= i < |objects| && objects[i].ref == ref;
      assert (objects + [o])[i].ref == ref;
    }
    assert (objects + [o])[|objects|] == o;
  }

  // ---------------------------------------------------------------------
  // The pass

  datatype PassResult = PassResult(scanned: nat, deleted: nat, next: Option<Ref>)

  predicate MayBeOrphan(generated: Ref -> bool, o: StoredObject, cutoff: Time) {
    generated(o.ref) && o.lastModified < cutoff
  }

  /** The listed objects that may be orphans: generated ones from before the cutoff. */
  function Judged(generated: Ref -> bool, objects: seq<StoredObject>, cutoff: Time): seq<Ref> {
    if objects == [] then []
    else
      var last := objects[|objects| - 1];
      Judged(generated, objects[..|objects| - 1], cutoff) + if MayBeOrphan(generated, last, cutoff)
          then [last.ref] else []
  }

  /** Of the objects that were old when the pass began, and lie between its cursor
      and the point it has reached, each is a candidate or gone. */
  ghost predicate Covers(generated: Ref -> bool, grace: nat, start: World, w: World, cursor: Option<Ref>,
      next: Option<Ref>, ended: bool, candidates: seq<Ref>) {
    forall r :: r in start.objects && generated(r) && Old(grace, start, r) && Behind(cursor, r)
        && (ended || (next.Some? && r <= next.value))
      ==> r in candidates || r !in w.objects
  }

  lemma CoversNothing(generated: Ref -> bool, grace: nat, start: World, w: World, cursor: Option<Ref>)
    ensures Covers(generated, grace, start, w, cursor, cursor, false, [])
  {
  }

  lemma ListsAtMost(w: World, cursor: Option<Ref>, limit: nat, l: Listing)
    requires Lists(w, cursor, limit, l)
    ensures |l.objects| <= limit
  {
  }

  lemma {:induction false} JudgedAre(generated: Ref -> bool, objects: seq<StoredObject>, cutoff: Time, r: Ref)
    ensures r in Judged(generated, objects, cutoff) <==>
            exists o :: o in objects && o.ref == r && MayBeOrphan(generated, o, cutoff)
    decreases |objects|
  {
    hide MayBeOrphan;
    if objects != [] {
      var n := |objects| - 1;
      JudgedAre(generated, objects[..n], cutoff, r);
      assert objects == objects[..n] + [objects[n]];
    }
  }

  lemma JudgedAreOld(generated: Ref -> bool, grace: nat, looked: World, w: World, cursor: Option<Ref>,
      limit: nat, l: Listing)
    requires Later(grace, looked, w) && Inv(grace, looked) && Lists(w, cursor, limit, l)
    ensures forall r :: r in Judged(generated, l.objects, looked.clock - grace) ==> generated(r) && Old(grace, w, r)
  {
    hide References;
    forall r | r in Judged(generated, l.objects, looked.clock - grace)
      ensures generated(r) && Old(grace, w, r)
    {
      JudgedAre(generated, l.objects, looked.clock - grace, r);
      var o :| o in l.objects && o.ref == r && MayBeOrphan(generated, o, looked.clock - grace);
      var i :| 0 <= i < |l.objects| && l.objects[i] == o;
      assert IsNext(w, cursor, l.objects[i]);
    }
  }

  lemma CoversMore(generated: Ref -> bool, grace: nat, start: World, before: World, w: World,
                   cursor: Option<Ref>, next: Option<Ref>, limit: nat, candidates: seq<Ref>, l: Listing, cutoff: Time)
    requires Covers(generated, grace, start, before, cursor, next, false, candidates)
    requires Inv(grace, start) && Inv(grace, before) && Later(grace, start, before) && Later(grace, before, w)
        && Lists(w, next, limit, l)
    requires start.clock - grace <= cutoff
    ensures Covers(generated, grace, start, w, cursor, l.next, l.next.None?,
        candidates + Judged(generated, l.objects, cutoff))
  {
    hide References;
    forall r | r in start.objects && generated(r) && Old(grace, start, r) && Behind(cursor, r)
      && (l.next.None? || r <= l.next.value) && r in w.objects
      ensures r in candidates || r in Judged(generated, l.objects, cutoff)
    {
      if Behind(next, r) {
        assert Holds(l.objects, r);
        var i :| 0 <= i < |l.objects| && l.objects[i].ref == r;
        assert IsNext(w, next, l.objects[i]);
        JudgedAre(generated, l.objects, cutoff, r);
      }
    }
  }

  /** What became of one pending deletion. */
  datatype Fate = Undeleted | Unrecorded | Recorded

  function Tally(fates: seq<Fate>, f: Fate): nat {
    if fates == [] then 0 else Tally(fates[..|fates| - 1], f) + if fates[|fates| - 1] == f then 1 else 0
  }

  lemma TallyOneMore(fates: seq<Fate>, f: Fate)
    ensures forall g :: Tally(fates + [f], g) == Tally(fates, g) + if f == g then 1 else 0
  {
    assert (fates + [f])[..|fates|] == fates;
  }

  class Reconciler {
    const surroundings: Surroundings
    const batchSize: nat
    const maxObjects: nat

    ghost predicate Valid()
      reads surroundings
    {
      surroundings.Valid() && 1 <= batchSize <= maxObjects
    }

    constructor (surroundings: Surroundings, batchSize: nat, maxObjects: nat)
      requires surroundings.Valid() && 1 <= batchSize <= maxObjects
      ensures Valid() && this.surroundings == surroundings
    {
      this.surroundings, this.batchSize, this.maxObjects := surroundings, batchSize, maxObjects;
    }

    /** Deletes originals whose deletion the catalog still waits for; one that cannot
        be deleted does not stop the others, one that cannot be recorded does. What
        became of each is in `fates`. */
    method FinishDeletions()
      returns (deleted: nat, late: Option<PassError>, error: Option<PassError>, ghost pending: seq<Pending>,
          ghost fates: seq<Fate>)
      requires Valid()
      modifies surroundings
      ensures Valid() && Later(surroundings.grace, old(surroundings.world), surroundings.world)
      ensures |fates| <= |pending| <= batchSize
      ensures deleted == Tally(fates, Recorded)
      ensures late == if Undeleted in fates then Some(PendingDeletionFailed) else None
      ensures error == None ==> |fates| == |pending|
      ensures error == Some(PendingLookupFailed) ==> pending == []
      ensures error in {None, Some(PendingLookupFailed), Some(PendingRecordFailed)}
      ensures forall i :: 0 <= i < |fates| ==> (fates[i] == Unrecorded
          <==> i == |fates| - 1 && error == Some(PendingRecordFailed))
      ensures error == Some(PendingRecordFailed) ==> fates != []
      ensures forall i :: 0 <= i < |fates| && fates[i] == Recorded ==> Finished(surroundings.world, pending[i])
    {
      hide Inv, Later, Awaits, Finished;
      var s := surroundings;
      ghost var grace, start := s.grace, s.world;
      deleted, late, error, pending, fates := 0, None, None, [], [];
      var reply := s.PendingOriginalDeletions(batchSize);
      if reply.Err? {
        error := Some(PendingLookupFailed);
        return;
      }
      var rows := reply.value;
      pending := rows;
      for i := 0 to |rows|
        invariant s.Valid() && Later(grace, start, s.world) && error == None && |fates| == i
        invariant deleted == Tally(fates, Recorded)
        invariant late == if Undeleted in fates then Some(PendingDeletionFailed) else None
        invariant Unrecorded !in fates
        invariant forall k :: i <= k < |rows| ==> Awaits(s.world, rows[k])
        invariant forall k :: 0 <= k < i && fates[k] == Recorded ==> Finished(s.world, rows[k])
      {
        ghost var before := s.world;
        var recorded := true;
        var ok := s.EraseOriginal(rows[i]);
        ghost var erased := s.world;
        LaterThrough(grace, start, before, erased);
        if !ok {
          late := Some(PendingDeletionFailed);
          TallyOneMore(fates, Undeleted);
          fates := fates + [Undeleted];
        } else {
          recorded := s.MarkOriginalDeleted(rows[i]);
          LaterThrough(grace, start, erased, s.world);
          LaterThrough(grace, before, erased, s.world);
          TallyOneMore(fates, if recorded then Recorded else Unrecorded);
          fates := fates + [if recorded then Recorded else Unrecorded];
          if recorded {
            deleted := deleted + 1;
          }
        }
        forall k | i < k < |rows| ensures Awaits(s.world, rows[k]) {
          AwaitsLater(grace, before, s.world, rows[k]);
        }
        forall k | 0 <= k < i && fates[k] == Recorded ensures Finished(s.world, rows[k]) {
          FinishedLater(grace, before, s.world, rows[k]);
        }
        if !recorded {
          error := Some(PendingRecordFailed);
          return;
        }
      }
    }

    /** Lists objects from the cursor on, and keeps those old enough to judge. */
    method Scan(cursor: Option<Ref>)
        returns (scanned: nat, next: Option<Ref>, candidates: seq<Ref>, error: Option<PassError>)
      requires Valid()
      modifies surroundings
      ensures Valid() && Later(surroundings.grace, old(surroundings.world), surroundings.world)
      ensures scanned <= maxObjects && error in {None, Some(ListingFailed)}
      ensures error == None ==>
                && (forall r :: r in candidates ==>
                      surroundings.generated(r) && Old(surroundings.grace, surroundings.world, r))
                && Covers(surroundings.generated, surroundings.grace, old(surroundings.world), surroundings.world,
                     cursor, next, next == None, candidates)
    {
      hide Inv, Later, Lists, Covers, Old;
      var s := surroundings;
      ghost var grace, start := s.grace, s.world;
      scanned, next, candidates, error := 0, cursor, [], None;
      var now := s.Now();
      ghost var looked := s.world;
      LaterIsReflexive(grace, looked);
      CoversNothing(s.generated, grace, start, looked, cursor);
      ghost var ended := false;
      while scanned < maxObjects
        invariant s.Valid() && Later(grace, start, s.world) && Later(grace, looked, s.world)
        invariant scanned <= maxObjects && error == None && !ended
        invariant scanned > 0 ==> next.Some?
        invariant forall r :: r in candidates ==> s.generated(r) && Old(grace, s.world, r)
        invariant Covers(s.generated, grace, start, s.world, cursor, next, ended, candidates)
        decreases maxObjects - scanned
      {
        var limit := if batchSize < maxObjects - scanned then batchSize else maxObjects - scanned;
        ghost var before, kept := s.world, candidates;
        var reply := s.ListCompleted(next, limit);
        LaterThrough(grace, start, before, s.world);
        LaterThrough(grace, looked, before, s.world);
        forall r | r in candidates ensures Old(grace, s.world, r) {
          OldLater(grace, before, s.world, r);
        }
        if reply.Err? {
          error := Some(ListingFailed);
          return;
        }
        var listing := reply.value;
        ListsAtMost(s.world, next, limit, listing);
        var judged := Judged(s.generated, listing.objects, now - s.grace);
        JudgedAreOld(s.generated, grace, looked, s.world, next, limit, listing);
        CoversMore(s.generated, grace, start, before, s.world, cursor, next, limit, candidates, listing, now - s.grace);
        candidates := candidates + judged;
        scanned := scanned + |listing.objects|;
        next := listing.next;
        ended := next.None?;
        if next.None? || |listing.objects| == 0 {
          break;
        }
      }
    }

    /** Looks the candidates' rows up, batch by batch, and keeps those without one. */
    method FindOrphans(candidates: seq<Ref>) returns (orphans: seq<Ref>, error: Option<PassError>)
      requires Valid()
      requires forall r :: r in candidates ==>
                 surroundings.generated(r) && Old(surroundings.grace, surroundings.world, r)
      modifies surroundings
      ensures Valid() && Later(surroundings.grace, old(surroundings.world), surroundings.world)
      ensures forall r :: r in orphans ==>
                surroundings.generated(r) && Old(surroundings.grace, surroundings.world, r)
                && r !in References(surroundings.world)
      ensures error in {None, Some(ReferenceLookupFailed)}
      ensures error == None ==> forall r :: r in candidates ==> r in orphans || Kept(surroundings.world, r)
    {
      hide Inv, Later, Old, References, Kept;
      var s := surroundings;
      ghost var grace, start := s.grace, s.world;
      orphans, error := [], None;
      LaterIsReflexive(grace, start);
      var at := 0;
      while at < |candidates|
        invariant at <= |candidates| && s.Valid() && Later(grace, start, s.world) && error == None
        invariant forall r :: r in candidates ==> Old(grace, s.world, r)
        invariant forall r :: r in orphans ==> s.generated(r) && Old(grace, s.world, r) && r !in References(s.world)
        invariant forall i :: 0 <= i < at ==> candidates[i] in orphans || Kept(s.world, candidates[i])
        decreases |candidates| - at
      {
        var end := if at + batchSize < |candidates| then at + batchSize else |candidates|;
        var batch := candidates[at..end];
        ghost var before := s.world;
        var reply := s.ReferencesExist(batch);
        LaterThrough(grace, start, before, s.world);
        JudgementsLast(grace, before, s.world);
        if reply.Err? {
          error := Some(ReferenceLookupFailed);
          return;
        }
        var missing := WithoutRow(batch, reply.value);
        forall i | at <= i < end ensures candidates[i] in missing || Kept(s.world, candidates[i]) {
          assert batch[i - at] == candidates[i];
          ReferencedIsKept(s.world, candidates[i]);
        }
        forall r | r in missing ensures Old(grace, s.world, r) && r !in References(s.world) {
        }
        orphans := orphans + missing;
        at := end;
      }
    }

    method DeleteOrphans(orphans: seq<Ref>) returns (deleted: nat, error: Option<PassError>)
      requires Valid()
      requires forall r :: r in orphans ==>
                 surroundings.generated(r) && Old(surroundings.grace, surroundings.world, r)
                 && r !in References(surroundings.world)
      modifies surroundings
      ensures Valid() && Later(surroundings.grace, old(surroundings.world), surroundings.world)
      ensures deleted <= |orphans| && forall i :: 0 <= i < deleted ==> orphans[i] !in surroundings.world.objects
      ensures error == if deleted == |orphans| then None else Some(OrphanDeletionFailed)
    {
      hide Inv, Later, Old, References;
      var s := surroundings;
      ghost var grace, start := s.grace, s.world;
      deleted, error := 0, None;
      LaterIsReflexive(grace, start);
      for i := 0 to |orphans|
        invariant s.Valid() && Later(grace, start, s.world) && error == None && deleted == i
        invariant forall r :: r in orphans ==> Old(grace, s.world, r) && r !in References(s.world)
        invariant forall k :: 0 <= k < i ==> orphans[k] !in s.world.objects
      {
        ghost var before := s.world;
        var ok := s.DeleteOrphan(orphans[i]);
        LaterThrough(grace, start, before, s.world);
        JudgementsLast(grace, before, s.world);
        if !ok {
          error := Some(OrphanDeletionFailed);
          return;
        }
        deleted := deleted + 1;
      }
    }

    /** One pass. It keeps the original of every row that is not being deleted, and
        whatever it removes as an orphan is a generated object, old, and has no row, now
        or later. It looks at no more than maxObjects. A pass that is completed, whether or not all pending
        deletions were, leaves no old generated object without a row from its cursor
        to the one it returns. One that fails before it lists stays where it was. */
    method RunPass(cursor: Option<Ref>)
      returns (result: PassResult, error: Option<PassError>, ghost fates: seq<Fate>, ghost orphans: seq<Ref>,
          ghost removed: nat)
      requires Valid()
      modifies surroundings
      ensures Valid() && OriginalsKept(surroundings.world)
      ensures Later(surroundings.grace, old(surroundings.world), surroundings.world)
      ensures forall r :: r in surroundings.world.swept ==>
                surroundings.generated(r) && Old(surroundings.grace, surroundings.world, r)
                && r !in References(surroundings.world)
      ensures result.scanned <= maxObjects
      ensures result.deleted == Tally(fates, Recorded) + removed
      ensures removed <= |orphans| && forall i :: 0 <= i < removed ==> orphans[i] !in surroundings.world.objects
      ensures Completed(error) ==>
                && removed == |orphans|
                && error == (if Undeleted in fates then Some(PendingDeletionFailed) else None)
                && SweptTo(surroundings, old(surroundings.world), surroundings.world, cursor, result.next)
      ensures error in {Some(PendingLookupFailed), Some(PendingRecordFailed)} ==>
                result.next == cursor && result.scanned == 0 && orphans == []
      ensures error == Some(OrphanDeletionFailed) ==> removed < |orphans|
    {
      hide Inv, Later, Old, References, Covers, SweptTo, OriginalsKept, Tally;
      var s := surroundings;
      ghost var grace, start := s.grace, s.world;
      ghost var pending;
      orphans, removed := [], 0;
      var done, late, failed;
      done, late, failed, pending, fates := FinishDeletions();
      ghost var finished := s.world;
      InvKeepsOriginals(grace, finished);
      if failed.Some? {
        result, error := PassResult(0, done, cursor), failed;
        return;
      }
      var scanned, next, candidates, scanError := Scan(cursor);
      ghost var scannedWorld := s.world;
      LaterThrough(grace, start, finished, scannedWorld);
      InvKeepsOriginals(grace, scannedWorld);
      result, error := PassResult(scanned, done, next), scanError;
      if scanError.Some? {
        return;
      }
      var found, lookupError := FindOrphans(candidates);
      ghost var looked := s.world;
      LaterThrough(grace, start, scannedWorld, looked);
      InvKeepsOriginals(grace, looked);
      error := lookupError;
      if lookupError.Some? {
        return;
      }
      orphans := found;
      var deleted, deleteError := DeleteOrphans(found);
      LaterThrough(grace, start, looked, s.world);
      InvKeepsOriginals(grace, s.world);
      removed := deleted;
      result, error := result.(deleted := done + deleted), deleteError;
      if deleteError.Some? {
        return;
      }
      SweptAtLast(s, start, finished, scannedWorld, looked, s.world, cursor, next, candidates, found);
      error := late;
    }

    /** The background loop, for any number of passes: each goes on from the cursor of
        the one before it, whatever that one's error. */
    method RunReconciliation(passes: nat) returns (ghost log: seq<Pass>)
      requires Valid()
      modifies surroundings
      ensures Valid() && |log| == passes && IsLog(surroundings, log)
    {
      hide Inv, Later, SweptTo, OriginalsKept;
      var s := surroundings;
      var cursor := None;
      log := [];
      for i := 0 to passes
        invariant s.Valid() && |log| == i && IsLog(s, log)
        invariant if i == 0 then cursor == None
            else cursor == log[i - 1].next && Later(s.grace, log[i - 1].end, s.world)
      {
        ghost var before := s.world;
        var _ := s.Interfere();
        if i > 0 {
          LaterThrough(s.grace, log[i - 1].end, before, s.world);
        }
        ghost var start := s.world;
        var result, error;
        ghost var fates, orphans, removed;
        result, error, fates, orphans, removed := RunPass(cursor);
        log := log + [Pass(start, s.world, cursor, result.next, error)];
        LaterIsReflexive(s.grace, s.world);
        cursor := result.next;
      }
    }
  }

  /** All deletions of orphans were done; some pending deletion may be still to do. */
  predicate Completed(error: Option<PassError>) {
    error in {None, Some(PendingDeletionFailed)}
  }

  /** Of the old generated objects from the cursor to the next one, those left have a row. */
  ghost predicate SweptTo(s: Surroundings, start: World, end: World, cursor: Option<Ref>, next: Option<Ref>) {
    forall r :: r in start.objects && s.generated(r) && Old(s.grace, start, r)
             && Behind(cursor, r) && (next.None? || r <= next.value) && r in end.objects
      ==> r in References(end)
  }

  lemma InvKeepsOriginals(grace: nat, w: World)
    requires Inv(grace, w)
    ensures OriginalsKept(w) && forall r :: r in w.swept ==> Old(grace, w, r) && r !in References(w)
  {
    hide References;
  }

  lemma SweptAtLast(s: Surroundings, start: World, finished: World, scanned: World, looked: World, end: World,
                    cursor: Option<Ref>, next: Option<Ref>, candidates: seq<Ref>, orphans: seq<Ref>)
    requires Inv(s.grace, start) && Inv(s.grace, finished) && Inv(s.grace, scanned)
    requires Inv(s.grace, looked) && Inv(s.grace, end)
    requires Later(s.grace, start, finished) && Later(s.grace, finished, scanned)
    requires Later(s.grace, scanned, looked) && Later(s.grace, looked, end)
    requires Covers(s.generated, s.grace, finished, scanned, cursor, next, next == None, candidates)
    requires forall r :: r in candidates ==> Old(s.grace, scanned, r)
    requires forall r :: r in candidates ==> r in orphans || Kept(looked, r)
    requires forall i :: 0 <= i < |orphans| ==> orphans[i] !in end.objects
    ensures SweptTo(s, start, end, cursor, next)
  {
    hide References, Inv, Later, Old, Covers;
    forall r | r in start.objects && s.generated(r) && Old(s.grace, start, r)
            && Behind(cursor, r) && (next.None? || r <= next.value) && r in end.objects
      ensures r in References(end)
    {
      StillThere(s.grace, start, finished, r);
      StillThere(s.grace, finished, scanned, r);
      StillThere(s.grace, scanned, looked, r);
      StillThere(s.grace, looked, end, r);
      StoredWasModified(s.grace, start, r);
      CoveredCandidate(s.generated, s.grace, finished, scanned, cursor, next, candidates, r);
    }
  }

  lemma StoredWasModified(grace: nat, w: World, r: Ref)
    requires Inv(grace, w) && r in w.objects
    ensures r in w.modified
  {
  }

  lemma CoveredCandidate(generated: Ref -> bool, grace: nat, start: World, w: World,
                         cursor: Option<Ref>, next: Option<Ref>, candidates: seq<Ref>, r: Ref)
    requires Covers(generated, grace, start, w, cursor, next, next == None, candidates)
    requires r in start.objects && generated(r) && Old(grace, start, r)
    requires Behind(cursor, r) && (next.None? || r <= next.value) && r in w.objects
    ensures r in candidates
  {
  }

  // ---------------------------------------------------------------------
  // Sweeps of several passes

  datatype Pass = Pass(start: World, end: World, cursor: Option<Ref>, next: Option<Ref>, error: Option<PassError>)

  ghost predicate PassOk(s: Surroundings, p: Pass) {
    && Inv(s.grace, p.start) && Inv(s.grace, p.end) && Later(s.grace, p.start, p.end)
    && (Completed(p.error) ==> SweptTo(s, p.start, p.end, p.cursor, p.next))
  }

  /** Passes one after the other, with anything in between. */
  ghost predicate IsLog(s: Surroundings, log: seq<Pass>) {
    && (forall i :: 0 <= i < |log| ==> PassOk(s, log[i]))
    && (forall i :: 0 <= i < |log| - 1 ==>
          log[i + 1].cursor == log[i].next && Later(s.grace, log[i].end, log[i + 1].start))
  }

  lemma {:induction false} LogLater(s: Surroundings, log: seq<Pass>, i: nat, j: nat)
    requires IsLog(s, log) && i <= j < |log|
    ensures Later(s.grace, log[i].start, log[j].end) && Later(s.grace, log[i].start, log[j].start)
    ensures Later(s.grace, log[i].end, log[j].end)
    decreases j
  {
    hide Inv, Later, SweptTo;
    assert PassOk(s, log[i]) && PassOk(s, log[j]);
    if i < j {
      LogLater(s, log, i, j - 1);
      assert PassOk(s, log[j - 1]) && log[j - 1 + 1] == log[j];
      LaterThrough(s.grace, log[i].start, log[j - 1].end, log[j].start);
      LaterThrough(s.grace, log[i].start, log[j].start, log[j].end);
      LaterThrough(s.grace, log[i].end, log[j - 1].end, log[j].start);
      LaterThrough(s.grace, log[i].end, log[j].start, log[j].end);
    } else {
      LaterIsReflexive(s.grace, log[i].start);
      LaterIsReflexive(s.grace, log[i].end);
    }
  }

  /** Some pass from i on has the reference between its cursors. */
  lemma {:induction false} PassOver(s: Surroundings, log: seq<Pass>, i: nat, j: nat, r: Ref) returns (k: nat)
    requires IsLog(s, log) && i <= j < |log| && Behind(log[i].cursor, r) && log[j].next == None
    ensures i <= k <= j && Behind(log[k].cursor, r) && (log[k].next.None? || r <= log[k].next.value)
    decreases j - i
  {
    hide PassOk, Later;
    k := i;
    if log[i].next.Some? && log[i].next.value < r {
      assert log[i + 1].cursor == log[i].next;
      k := PassOver(s, log, i + 1, j, r);
    }
  }

  /** From an empty cursor back to an empty cursor, by any number of completed passes
      and whatever others do meanwhile: of the generated objects that were old at the
      start, those that are left have a row. A pass that fails behind its listing is
      not completed, and the loop goes on behind what it listed all the same. */
  lemma SweepLeavesNoOrphan(s: Surroundings, log: seq<Pass>, i: nat, j: nat)
    requires IsLog(s, log) && i <= j < |log| && log[i].cursor == None && log[j].next == None
    requires forall k :: i <= k <= j ==> Completed(log[k].error)
    ensures SweptTo(s, log[i].start, log[j].end, None, None)
  {
    hide Inv, Later, Old, References, SweptTo;
    forall r | r in log[i].start.objects && s.generated(r) && Old(s.grace, log[i].start, r) && r in log[j].end.objects
      ensures r in References(log[j].end)
    {
      var k := PassOver(s, log, i, j, r);
      assert PassOk(s, log[k]) && PassOk(s, log[i]) && PassOk(s, log[j]);
      LogLater(s, log, i, k);
      LogLater(s, log, k, j);
      SweptThere(s, log[i].start, log[k], log[j].end, r);
    }
    SweptAll(s, log[i].start, log[j].end);
  }

  lemma SweptThere(s: Surroundings, first: World, p: Pass, last: World, r: Ref)
    requires Inv(s.grace, first) && Inv(s.grace, last) && PassOk(s, p) && Completed(p.error)
    requires Later(s.grace, first, p.start) && Later(s.grace, p.end, last)
    requires r in first.objects && s.generated(r) && Old(s.grace, first, r) && r in last.objects
    requires Behind(p.cursor, r) && (p.next.None? || r <= p.next.value)
    ensures r in References(last)
  {
    hide References;
    StillThere(s.grace, first, p.start, r);
    StillThere(s.grace, p.start, p.end, r);
    StillThere(s.grace, p.end, last, r);
  }

  lemma SweptAll(s: Surroundings, start: World, end: World)
    requires forall r :: r in start.objects && s.generated(r) && Old(s.grace, start, r) && r in end.objects ==>
        r in References(end)
    ensures SweptTo(s, start, end, None, None)
  {
  }

  lemma StillThere(grace: nat, w: World, v: World, r: Ref)
    requires Inv(grace, w) && Inv(grace, v) && Later(grace, w, v)
    ensures Old(grace, w, r) ==> Old(grace, v, r)
    ensures r in w.modified && r in v.objects ==> r in w.objects
    ensures r in w.modified ==> r in v.modified
    ensures r in w.modified && r in v.objects && r in References(w) ==> r in References(v)
  {
    hide References;
  }

  /** Has a row, or is gone. */
  predicate Kept(w: World, ref: Ref) {
    ref in References(w) || ref !in w.objects
  }

  lemma ReferencedIsKept(w: World, ref: Ref)
    ensures ref in References(w) ==> Kept(w, ref)
  {
  }

  lemma JudgementsLast(grace: nat, w: World, v: World)
    requires Inv(grace, w) && Inv(grace, v) && Later(grace, w, v)
    ensures forall r :: Old(grace, w, r) ==> Old(grace, v, r)
    ensures forall r :: Old(grace, w, r) && r !in References(w) ==> r !in References(v)
    ensures forall r :: Old(grace, w, r) && Kept(w, r) ==> Kept(v, r)
    ensures forall r :: Old(grace, w, r) && r !in w.objects ==> r !in v.objects
  {
    hide References;
  }

  method WithoutRow(batch: seq<Ref>, known: set<Ref>) returns (missing: seq<Ref>)
    ensures forall r :: r in missing <==> r in batch && r !in known
  {
    missing := [];
    for i := 0 to |batch|
      invariant forall r :: r in missing <==> r in batch[..i] && r !in known
    {
      assert batch[..i + 1] == batch[..i] + [batch[i]];
      if batch[i] !in known {
        missing := missing + [batch[i]];
      }
    }
    assert batch[..|batch|] == batch;
  }
}
