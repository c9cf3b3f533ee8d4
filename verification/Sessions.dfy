/**
 Sessions and one-time refresh tokens
 (services/identity-service/repository/postgres_session_repository.go).

 Every method is one transaction over rows that it locks, so a run is a sequence
 of whole transactions. A token row is known by its hash, which is unique.
 */
module Sessions {
  import opened Prelude

  datatype Session = Session(user: Id, family: Id, expiresAt: Time, revokedAt: Option<Time>, lastUsed: Time)

  datatype Token = Token(session: Id, consumedAt: Option<Time>, replacedBy: Option<Id>, expiresAt: Time)

  /** `users` says who is active. */
  datatype Db = Db(users: map<Id, bool>, sessions: map<Id, Session>, tokens: map<Id, Token>)

  datatype SessionError = TokenInvalid | TokenReused | SessionInvalid | PrepareFailed | DatabaseError

  datatype Reply = Done | Failed(error: SessionError)

  datatype Tx = Tx(db: Db, reply: Reply)

  predicate Active(db: Db, user: Id) {
    user in db.users && db.users[user]
  }

  function Create(db: Db, id: Id, user: Id, family: Id, expiresAt: Time, createdAt: Time, hash: Id): Tx {
    if id in db.sessions || user !in db.users || hash in db.tokens then Tx(db, Failed(DatabaseError))
    else
      Tx(db.(sessions := db.sessions[id := Session(user, family, expiresAt, None, createdAt)],
             tokens := db.tokens[hash := Token(id, None, None, expiresAt)]), Done)
  }

  function RevokedBy(s: Session, now: Time): Session {
    if s.revokedAt.None? then s.(revokedAt := Some(now)) else s
  }

  function FamilyRevoked(sessions: map<Id, Session>, family: Id, now: Time): map<Id, Session> {
    map id | id in sessions :: if sessions[id].family == family then RevokedBy(sessions[id], now) else sessions[id]
  }

  /** `prepared` is whether the caller could issue its access token. */
  function Rotate(db: Db, hash: Id, successor: Id, now: Time, prepared: bool): Tx {
    if hash !in db.tokens || db.tokens[hash].session !in db.sessions
        || !Active(db, db.sessions[db.tokens[hash].session].user)
    then Tx(db, Failed(TokenInvalid))
    else
      var token := db.tokens[hash];
      var session := db.sessions[token.session];
      if token.consumedAt.Some? then Tx(db.(sessions := FamilyRevoked(db.sessions, session.family, now)),
          Failed(TokenReused))
      else if session.expiresAt <= now then Tx(db, Failed(TokenInvalid))
      else if session.revokedAt.Some? then Tx(db, Failed(TokenInvalid))
      else if !prepared then Tx(db, Failed(PrepareFailed))
      else if successor in db.tokens then Tx(db, Failed(DatabaseError))
      else
        var grown := db.tokens[successor := Token(token.session, None, None, session.expiresAt)];
        Tx(db.(tokens := grown[hash := token.(consumedAt := Some(now), replacedBy := Some(successor))],
               sessions := db.sessions[token.session := session.(lastUsed := now)]), Done)
  }

  predicate Validates(db: Db, user: Id, id: Id, now: Time) {
    id in db.sessions && db.sessions[id].user == user && db.sessions[id].revokedAt.None?
        && now < db.sessions[id].expiresAt && Active(db, user)
  }

  function Logout(db: Db, id: Id, now: Time): Db {
    if id in db.sessions then db.(sessions := db.sessions[id := RevokedBy(db.sessions[id], now)]) else db
  }

  /** Tokens go with their session, by the cascading foreign key. */
  function CleanupExpired(db: Db, now: Time): Db {
    var kept := map id | id in db.sessions && now < db.sessions[id].expiresAt :: db.sessions[id];
    db.(sessions := kept, tokens := map h | h in db.tokens && db.tokens[h].session in kept :: db.tokens[h])
  }

  /** What a password reset and a rejected librarian do to sessions. */
  function RevokeUser(db: Db, user: Id, now: Time): Db {
    db.(sessions := map id | id in db.sessions :: if db.sessions[id].user == user then RevokedBy(db.sessions[id], now)
        else db.sessions[id])
  }

  // ---------------------------------------------------------------------
  // Runs

  datatype Action =
    | Login(id: Id, user: Id, family: Id, expiresAt: Time, now: Time, hash: Id)
    | Refresh(hash: Id, successor: Id, now: Time, prepared: bool)
    | SignOut(id: Id, now: Time)
    | Clean(now: Time)
    | Revoke(user: Id, now: Time)
    | SetUser(user: Id, active: bool)

  /** `chains` are the tokens of each session in the order of issue; `issued` and
      `begun` all hashes and session identifiers ever drawn; `spent` the hashes
      whose rotation succeeded; `replayed` the sessions with a replay on record. */
  datatype World = World(db: Db, chains: map<Id, seq<Id>>, issued: set<Id>, begun: set<Id>, spent: seq<Id>,
      replayed: set<Id>)

  const NEW: World := World(Db(map[], map[], map[]), map[], {}, {}, [], {})

  /** Random identifiers are not drawn twice. */
  predicate Enabled(w: World, a: Action) {
    match a
    case Login(id, _, _, _, _, hash) => id !in w.begun && hash !in w.issued
    case Refresh(_, successor, _, _) => successor !in w.issued
    case _ => true
  }

  function Next(w: World, a: Action): World {
    match a
    case Login(id, user, family, expiresAt, now, hash) =>
      var tx := Create(w.db, id, user, family, expiresAt, now, hash);
      w.(db := tx.db, issued := w.issued + {hash}, begun := w.begun + {id},
         chains := if tx.reply == Done then w.chains[id := [hash]] else w.chains)
    case Refresh(hash, successor, now, prepared) =>
      var tx := Rotate(w.db, hash, successor, now, prepared);
      var w1 := w.(db := tx.db, issued := w.issued + {successor});
      if tx.reply == Done then
        var id := w.db.tokens[hash].session;
        w1.(chains := w.chains[id := (if id in w.chains then w.chains[id] else []) + [successor]],
            spent := w.spent + [hash])
      else if tx.reply == Failed(TokenReused) then w1.(replayed := w.replayed + {w.db.tokens[hash].session})
      else w1
    case SignOut(id, now) => w.(db := Logout(w.db, id, now))
    case Clean(now) =>
      var db := CleanupExpired(w.db, now);
      w.(db := db, chains := map id | id in w.chains && id in db.sessions :: w.chains[id])
    case Revoke(user, now) => w.(db := RevokeUser(w.db, user, now))
    case SetUser(user, active) => w.(db := w.db.(users := w.db.users[user := active]))
  }

  // ---------------------------------------------------------------------
  // The invariant

  /** The tokens of a session are one chain: each names its successor, all but the
      last are consumed, and the last is not. */
  predicate IsChain(tokens: map<Id, Token>, id: Id, chain: seq<Id>) {
    && chain != []
    && (forall i, j :: 0 <= i < j < |chain| ==> chain[i] != chain[j])
    && (forall i :: 0 <= i < |chain| ==> chain[i] in tokens && tokens[chain[i]].session == id)
    && (forall i :: 0 <= i < |chain| - 1
         ==> tokens[chain[i]].consumedAt.Some? && tokens[chain[i]].replacedBy == Some(chain[i + 1]))
    && tokens[chain[|chain| - 1]].consumedAt.None? && tokens[chain[|chain| - 1]].replacedBy.None?
    && (forall h :: h in tokens && tokens[h].session == id ==> h in chain)
  }

  predicate ChainsOk(w: World) {
    && w.chains.Keys == w.db.sessions.Keys
    && (forall id :: id in w.chains ==> IsChain(w.db.tokens, id, w.chains[id]))
    && (forall h :: h in w.db.tokens ==> w.db.tokens[h].session in w.db.sessions)
  }

  predicate DrawnOk(w: World) {
    && w.db.tokens.Keys <= w.issued
    && w.db.sessions.Keys <= w.begun
    && w.replayed <= w.begun
  }

  /** A spent token that is still there is consumed, and a hash is spent once. */
  predicate SpentOk(w: World) {
    && (forall i :: 0 <= i < |w.spent| ==> w.spent[i] in w.issued)
    && (forall i :: 0 <= i < |w.spent| && w.spent[i] in w.db.tokens ==> w.db.tokens[w.spent[i]].consumedAt.Some?)
    && (forall i, j :: 0 <= i < j < |w.spent| ==> w.spent[i] != w.spent[j])
  }

  predicate ReplayedOk(w: World) {
    forall id :: id in w.replayed && id in w.db.sessions ==> w.db.sessions[id].revokedAt.Some?
  }

  predicate Inv(w: World) {
    ChainsOk(w) && DrawnOk(w) && SpentOk(w) && ReplayedOk(w)
  }

  lemma OtherChain(tokens: map<Id, Token>, tokens': map<Id, Token>, id: Id, chain: seq<Id>)
    requires IsChain(tokens, id, chain)
    requires forall h :: h in tokens && tokens[h].session == id ==> h in tokens' && tokens'[h] == tokens[h]
    requires forall h :: h in tokens' && tokens'[h].session == id ==> h in tokens && tokens[h].session == id
    ensures IsChain(tokens', id, chain)
  {
  }

  lemma LoginKeeps(w: World, a: Action)
    requires Inv(w) && Enabled(w, a) && a.Login?
    ensures Inv(Next(w, a))
  {
    hide IsChain;
    var w' := Next(w, a);
    if w'.chains != w.chains {
      forall id | id in w'.chains ensures IsChain(w'.db.tokens, id, w'.chains[id]) {
        if id == a.id {
          FirstLink(w'.db.tokens, id, a.hash);
        } else {
          OtherChain(w.db.tokens, w'.db.tokens, id, w.chains[id]);
        }
      }
    }
  }

  lemma FirstLink(tokens: map<Id, Token>, id: Id, hash: Id)
    requires hash in tokens && tokens[hash].session == id && tokens[hash].consumedAt.None?
        && tokens[hash].replacedBy.None?
    requires forall h :: h in tokens && tokens[h].session == id ==> h == hash
    ensures IsChain(tokens, id, [hash])
  {
  }

  /** The only token of a chain without a consumption is its last. */
  lemma TailIsUnconsumed(tokens: map<Id, Token>, id: Id, chain: seq<Id>, h: Id)
    requires IsChain(tokens, id, chain) && h in tokens && tokens[h].session == id
    ensures tokens[h].consumedAt.None? <==> h == chain[|chain| - 1]
  {
    var i :| 0 <= i < |chain| && chain[i] == h;
  }

  lemma ChainGrows(tokens: map<Id, Token>, id: Id, chain: seq<Id>, successor: Id, now: Time, expiresAt: Time)
    requires IsChain(tokens, id, chain) && successor !in tokens
    ensures var tail := chain[|chain| - 1];
            var grown := tokens[successor := Token(id, None, None, expiresAt)];
            IsChain(grown[tail := tokens[tail].(consumedAt := Some(now), replacedBy := Some(successor))], id,
                chain + [successor])
  {
  }

  lemma RotatedKeeps(w: World, a: Action)
    requires Inv(w) && Enabled(w, a) && a.Refresh?
    requires Rotate(w.db, a.hash, a.successor, a.now, a.prepared).reply == Done
    ensures ChainsOk(Next(w, a))
    ensures DrawnOk(Next(w, a)) && SpentOk(Next(w, a)) && ReplayedOk(Next(w, a))
  {
    hide IsChain;
    var w' := Next(w, a);
    var id := w.db.tokens[a.hash].session;
    TailIsUnconsumed(w.db.tokens, id, w.chains[id], a.hash);
    ChainGrows(w.db.tokens, id, w.chains[id], a.successor, a.now, w.db.sessions[id].expiresAt);
    forall other | other in w'.chains ensures IsChain(w'.db.tokens, other, w'.chains[other]) {
      if other != id {
        OtherChain(w.db.tokens, w'.db.tokens, other, w.chains[other]);
      }
    }
  }

  lemma RefreshKeeps(w: World, a: Action)
    requires Inv(w) && Enabled(w, a) && a.Refresh?
    ensures Inv(Next(w, a))
  {
    hide IsChain;
    if Rotate(w.db, a.hash, a.successor, a.now, a.prepared).reply == Done {
      RotatedKeeps(w, a);
    }
  }

  lemma CleanKeeps(w: World, a: Action)
    requires Inv(w) && a.Clean?
    ensures Inv(Next(w, a))
  {
    hide IsChain;
    var w' := Next(w, a);
    forall id | id in w'.chains ensures IsChain(w'.db.tokens, id, w'.chains[id]) {
      OtherChain(w.db.tokens, w'.db.tokens, id, w.chains[id]);
    }
  }

  lemma StepKeeps(w: World, a: Action)
    requires Inv(w) && Enabled(w, a)
    ensures Inv(Next(w, a))
  {
    hide IsChain;
    match a
    case Login(_, _, _, _, _, _) => LoginKeeps(w, a);
    case Refresh(_, _, _, _) => RefreshKeeps(w, a);
    case Clean(_) => CleanKeeps(w, a);
    case _ =>
  }

  predicate Trace(w: World, actions: seq<Action>)
    decreases |actions|
  {
    actions == [] || (Enabled(w, actions[0]) && Trace(Next(w, actions[0]), actions[1..]))
  }

  function After(w: World, actions: seq<Action>): World
    decreases |actions|
  {
    if actions == [] then w else After(Next(w, actions[0]), actions[1..])
  }

  lemma {:induction false} TraceKeeps(w: World, actions: seq<Action>)
    requires Inv(w) && Trace(w, actions)
    ensures Inv(After(w, actions))
    decreases |actions|
  {
    hide Inv, Enabled;
    if actions != [] {
      StepKeeps(w, actions[0]);
      TraceKeeps(Next(w, actions[0]), actions[1..]);
    }
  }

  lemma NewOk()
    ensures Inv(NEW)
  {
  }

  /** In every reachable state the tokens of each session form one chain with one
      unconsumed token, its tail; and no token was ever rotated twice. */
  lemma TokensFormChains(actions: seq<Action>)
    requires Trace(NEW, actions)
    ensures var w := After(NEW, actions);
            && (forall id :: id in w.db.sessions ==> id in w.chains && IsChain(w.db.tokens, id, w.chains[id]))
            && (forall h :: h in w.db.tokens ==> w.db.tokens[h].session in w.db.sessions)
            && (forall i, j :: 0 <= i < j < |w.spent| ==> w.spent[i] != w.spent[j])
  {
    hide IsChain;
    TraceKeeps(NEW, actions);
  }

  /** What a refresh does, told by the chain: it succeeds for the tail of a live
      session, which it makes the last but one; it is a replay for any other token
      of the chain, and then the session is revoked, whatever its state. */
  lemma RefreshOnChain(actions: seq<Action>, id: Id, i: nat, successor: Id, now: Time, prepared: bool)
    requires Trace(NEW, actions)
    requires var w := After(NEW, actions);
             id in w.db.sessions && id in w.chains && i < |w.chains[id]| && successor !in w.issued
                 && Active(w.db, w.db.sessions[id].user)
    ensures RefreshesChain(After(NEW, actions), id, i, successor, now, prepared)
  {
    hide RefreshesChain, Inv;
    NewOk();
    TraceKeeps(NEW, actions);
    RefreshAt(After(NEW, actions), id, i, successor, now, prepared);
  }

  predicate RefreshesChain(w: World, id: Id, i: nat, successor: Id, now: Time, prepared: bool)
    requires id in w.db.sessions && id in w.chains && i < |w.chains[id]|
  {
    var session, chain := w.db.sessions[id], w.chains[id];
    var tx := Rotate(w.db, chain[i], successor, now, prepared);
    var w' := Next(w, Refresh(chain[i], successor, now, prepared));
    && (tx.reply == Done <==> i == |chain| - 1 && Validates(w.db, session.user, id, now) && prepared)
    && (tx.reply == Failed(TokenReused) <==> i < |chain| - 1)
    && (tx.reply == Done ==> id in w'.chains && w'.chains[id] == chain + [successor])
    && (tx.reply == Failed(TokenReused) ==>
          w'.chains == w.chains && id in tx.db.sessions && tx.db.sessions[id].revokedAt.Some? && id in w'.replayed)
    && (tx.reply != Done && tx.reply != Failed(TokenReused) ==> tx.db == w.db)
  }

  lemma RefreshAt(w: World, id: Id, i: nat, successor: Id, now: Time, prepared: bool)
    requires Inv(w) && id in w.db.sessions && id in w.chains && i < |w.chains[id]|
    requires successor !in w.issued && Active(w.db, w.db.sessions[id].user)
    ensures RefreshesChain(w, id, i, successor, now, prepared)
  {
    hide IsChain, ChainsOk, DrawnOk, SpentOk, ReplayedOk, FamilyRevoked;
    var chain := w.chains[id];
    ChainOf(w, id);
    InChain(w.db.tokens, id, chain, i);
    RotateReplies(w.db, chain[i], successor, now, prepared);
    var tx := Rotate(w.db, chain[i], successor, now, prepared);
    assert successor !in w.db.tokens by { DrawnTokens(w); }
    hide Rotate;
  }

  lemma ChainOf(w: World, id: Id)
    requires ChainsOk(w) && id in w.chains
    ensures IsChain(w.db.tokens, id, w.chains[id])
  {
  }

  lemma DrawnTokens(w: World)
    requires DrawnOk(w)
    ensures w.db.tokens.Keys <= w.issued
  {
  }

  lemma RotateReplies(db: Db, hash: Id, successor: Id, now: Time, prepared: bool)
    requires hash in db.tokens && db.tokens[hash].session in db.sessions
        && Active(db, db.sessions[db.tokens[hash].session].user)
    ensures var id := db.tokens[hash].session;
            var tx := Rotate(db, hash, successor, now, prepared);
            && (tx.reply == Done <==>
                  db.tokens[hash].consumedAt.None? && Validates(db, db.sessions[id].user, id, now) && prepared
                      && successor !in db.tokens)
            && (tx.reply == Failed(TokenReused) <==> db.tokens[hash].consumedAt.Some?)
            && (tx.reply == Failed(TokenReused) ==> id in tx.db.sessions && tx.db.sessions[id].revokedAt.Some?)
            && (tx.reply != Done && tx.reply != Failed(TokenReused) ==> tx.db == db)
  {
  }

  lemma InChain(tokens: map<Id, Token>, id: Id, chain: seq<Id>, i: nat)
    requires IsChain(tokens, id, chain) && i < |chain|
    ensures chain[i] in tokens && tokens[chain[i]].session == id
    ensures tokens[chain[i]].consumedAt.None? <==> i == |chain| - 1
  {
  }

  // ---------------------------------------------------------------------
  // Revocation is for good

  predicate Dead(w: World, id: Id) {
    id in w.begun && (id in w.db.sessions ==> w.db.sessions[id].revokedAt.Some?)
  }

  lemma DeadStays(w: World, a: Action, id: Id)
    requires Inv(w) && Enabled(w, a) && Dead(w, id)
    ensures Dead(Next(w, a), id)
    ensures id in w.db.sessions && id in Next(w, a).db.sessions
        ==> Next(w, a).db.sessions[id].revokedAt == w.db.sessions[id].revokedAt
    ensures id in w.chains && id in Next(w, a).chains ==> Next(w, a).chains[id] == w.chains[id]
  {
    hide IsChain;
  }

  /** Once a session is revoked, by a replay, a sign-out or for its user, nothing
      that happens later validates it or issues a token for it. */
  lemma {:induction false} RevocationIsForGood(w: World, actions: seq<Action>, id: Id, user: Id, now: Time)
    requires Inv(w) && Trace(w, actions) && Dead(w, id)
    ensures var end := After(w, actions);
            && Dead(end, id)
            && !Validates(end.db, user, id, now)
            && (id in end.chains ==> id in w.chains && end.chains[id] == w.chains[id])
    decreases |actions|
  {
    hide Inv, Enabled, Trace;
    if actions != [] {
      TraceOpens(w, actions);
      DeadStays(w, actions[0], id);
      NoNewChain(w, actions[0], id);
      StepKeeps(w, actions[0]);
      RevocationIsForGood(Next(w, actions[0]), actions[1..], id, user, now);
    }
  }

  lemma TraceOpens(w: World, actions: seq<Action>)
    requires Trace(w, actions) && actions != []
    ensures Enabled(w, actions[0]) && Trace(Next(w, actions[0]), actions[1..])
  {
  }

  lemma NoNewChain(w: World, a: Action, id: Id)
    requires Inv(w) && Enabled(w, a) && Dead(w, id)
    ensures id in Next(w, a).chains ==> id in w.chains
  {
    hide IsChain;
  }

  /** A replay by an active user ends the session. */
  lemma ReplayEndsSession(before: seq<Action>, hash: Id, successor: Id, now: Time, prepared: bool, after: seq<Action>,
      user: Id, later: Time)
    requires Trace(NEW, before) && Trace(Next(After(NEW, before), Refresh(hash, successor, now, prepared)), after)
    requires successor !in After(NEW, before).issued
    requires Rotate(After(NEW, before).db, hash, successor, now, prepared).reply == Failed(TokenReused)
    ensures var w := After(NEW, before);
            var id := w.db.tokens[hash].session;
            var end := After(Next(w, Refresh(hash, successor, now, prepared)), after);
            && !Validates(end.db, user, id, later)
            && (id in end.chains ==> id in w.chains && end.chains[id] == w.chains[id])
  {
    hide Inv;
    NewOk();
    TraceKeeps(NEW, before);
    var w := After(NEW, before);
    hide After, Trace;
    var a := Refresh(hash, successor, now, prepared);
    StepKeeps(w, a);
    ReplayKills(w, a);
    RevocationIsForGood(Next(w, a), after, w.db.tokens[hash].session, user, later);
  }

  lemma ReplayKills(w: World, a: Action)
    requires Inv(w) && a.Refresh? && Rotate(w.db, a.hash, a.successor, a.now, a.prepared).reply == Failed(TokenReused)
    ensures Dead(Next(w, a), w.db.tokens[a.hash].session) && Next(w, a).chains == w.chains
  {
    hide IsChain;
  }

  // ---------------------------------------------------------------------
  // A session, told by what happened

  function At(actions: seq<Action>, i: nat): World
    requires i <= |actions|
  {
    After(NEW, actions[..i])
  }

  /** The hash is a spent token of a session in the family of this one, and the
      session's user is active. */
  predicate Replays(w: World, hash: Id, id: Id) {
    id in w.db.sessions
    && exists other, i ::
         && other in w.chains && 0 <= i < |w.chains[other]| - 1 && w.chains[other][i] == hash
         && other in w.db.sessions && Active(w.db, w.db.sessions[other].user)
         && w.db.sessions[other].family == w.db.sessions[id].family
  }

  /** It is signed out, its user's sessions are revoked, or its family is replayed. */
  predicate Ends(w: World, a: Action, id: Id) {
    && id in w.db.sessions
    && match a
       case SignOut(other, _) => other == id
       case Revoke(user, _) => w.db.sessions[id].user == user
       case Refresh(hash, _, _, _) => Replays(w, hash, id)
       case _ => false
  }

  predicate Uses(w: World, a: Action, id: Id) {
    && a.Refresh? && a.prepared
    && id in w.chains && w.chains[id] != [] && w.chains[id][|w.chains[id]| - 1] == a.hash
    && id in w.db.sessions && w.db.sessions[id].revokedAt.None? && a.now < w.db.sessions[id].expiresAt
    && Active(w.db, w.db.sessions[id].user)
  }

  /** What one action makes of the row of one session. */
  predicate Tells(w: World, a: Action, w': World, id: Id) {
    && (id in w'.db.sessions <==>
        if id in w.db.sessions then !(a.Clean? && w.db.sessions[id].expiresAt <= a.now)
        else a.Login? && a.id == id && a.user in w.db.users)
    && (id in w'.db.sessions ==>
          w'.db.sessions[id] ==
          if id !in w.db.sessions then Session(a.user, a.family, a.expiresAt, None, a.now)
          else if Ends(w, a, id) && w.db.sessions[id].revokedAt.None? then
            w.db.sessions[id].(revokedAt := Some(a.now))
          else if Uses(w, a, id) then w.db.sessions[id].(lastUsed := a.now)
          else w.db.sessions[id])
  }

  lemma StepTells(w: World, a: Action, id: Id)
    requires Inv(w) && Enabled(w, a)
    ensures Tells(w, a, Next(w, a), id)
    ensures Next(w, a).db.users == if a.SetUser? then w.db.users[a.user := a.active] else w.db.users
  {
    hide IsChain;
    if a.Refresh? {
      RefreshTells(w, a, id);
    }
  }

  lemma ReplayExactly(w: World, hash: Id, id: Id)
    requires Inv(w)
    ensures Replays(w, hash, id) <==>
            && id in w.db.sessions && hash in w.db.tokens && w.db.tokens[hash].session in w.db.sessions
            && w.db.tokens[hash].consumedAt.Some?
            && Active(w.db, w.db.sessions[w.db.tokens[hash].session].user)
            && w.db.sessions[w.db.tokens[hash].session].family == w.db.sessions[id].family
  {
    hide IsChain, DrawnOk, SpentOk, ReplayedOk;
    if other, i :| && other in w.chains && 0 <= i < |w.chains[other]| - 1 && w.chains[other][i] == hash
                   && other in w.db.sessions && Active(w.db, w.db.sessions[other].user)
                   && id in w.db.sessions && w.db.sessions[other].family == w.db.sessions[id].family {
      InChain(w.db.tokens, other, w.chains[other], i);
    }
    if hash in w.db.tokens && w.db.tokens[hash].session in w.db.sessions {
      var i := OnChain(w, hash);
      InChain(w.db.tokens, w.db.tokens[hash].session, w.chains[w.db.tokens[hash].session], i);
    }
  }

  lemma OnChain(w: World, hash: Id) returns (i: nat)
    requires ChainsOk(w) && hash in w.db.tokens
    ensures var id := w.db.tokens[hash].session; id in w.chains && i < |w.chains[id]| && w.chains[id][i] == hash
  {
    var id := w.db.tokens[hash].session;
    assert IsChain(w.db.tokens, id, w.chains[id]);
    i :| 0 <= i < |w.chains[id]| && w.chains[id][i] == hash;
  }

  lemma UsesExactly(w: World, a: Action, id: Id)
    requires Inv(w)
    ensures Uses(w, a, id) <==>
            && a.Refresh? && a.prepared && id in w.db.sessions && a.hash in w.db.tokens
            && w.db.tokens[a.hash].session == id && w.db.tokens[a.hash].consumedAt.None?
            && w.db.sessions[id].revokedAt.None? && a.now < w.db.sessions[id].expiresAt
            && Active(w.db, w.db.sessions[id].user)
  {
    hide DrawnOk, SpentOk, ReplayedOk, IsChain;
    if a.Refresh? && id in w.db.sessions {
      ChainOf(w, id);
      NotEmpty(w.db.tokens, id, w.chains[id]);
      hide ChainsOk;
      InChain(w.db.tokens, id, w.chains[id], |w.chains[id]| - 1);
      if a.hash in w.db.tokens && w.db.tokens[a.hash].session == id {
        TailIsUnconsumed(w.db.tokens, id, w.chains[id], a.hash);
      }
    }
  }

  lemma NotEmpty(tokens: map<Id, Token>, id: Id, chain: seq<Id>)
    requires IsChain(tokens, id, chain)
    ensures chain != []
  {
  }

  lemma RefreshTells(w: World, a: Action, id: Id)
    requires Inv(w) && Enabled(w, a) && a.Refresh?
    ensures Tells(w, a, Next(w, a), id)
  {
    hide Replays, Uses, IsChain, ChainsOk, SpentOk, ReplayedOk;
    ReplayExactly(w, a.hash, id);
    UsesExactly(w, a, id);
  }

  // Over a run

  predicate LoggedIn(actions: seq<Action>, i: nat, id: Id)
    requires i < |actions|
  {
    actions[i].Login? && actions[i].id == id && exists j :: 0 <= j < i && Registers(actions[j], actions[i].user)
  }

  predicate Registers(a: Action, user: Id) {
    a.SetUser? && a.user == user
  }

  predicate EndedAt(actions: seq<Action>, i: nat, id: Id)
    requires i < |actions|
  {
    Ends(At(actions, i), actions[i], id)
  }

  /** No cleanup from the i-th action on came after the session's end. */
  predicate NotCleaned(actions: seq<Action>, i: nat, expiresAt: Time) {
    forall j :: i <= j < |actions| && actions[j].Clean? ==> actions[j].now < expiresAt
  }

  predicate ActiveNow(actions: seq<Action>, user: Id) {
    exists i :: 0 <= i < |actions| && actions[i] == SetUser(user, true)
                && forall j :: i < j < |actions| ==> !Registers(actions[j], user)
  }

  /** When it ended first. */
  predicate FirstEnd(actions: seq<Action>, i: nat, id: Id)
    requires i < |actions|
  {
    EndedAt(actions, i, id) && forall j :: 0 <= j < i ==> !EndedAt(actions, j, id)
  }

  lemma PrefixTrace(w: World, actions: seq<Action>, i: nat)
    requires Trace(w, actions) && i <= |actions|
    ensures Trace(w, actions[..i])
    ensures i < |actions| ==>
              && Enabled(After(w, actions[..i]), actions[i])
              && After(w, actions[..i + 1]) == Next(After(w, actions[..i]), actions[i])
    decreases |actions|
  {
    hide Enabled, Next;
    if i > 0 {
      assert actions[..i][1..] == actions[1..][..i - 1];
      PrefixTrace(Next(w, actions[0]), actions[1..], i - 1);
      if i < |actions| {
        assert actions[..i + 1][1..] == actions[1..][..i];
      }
    } else if actions != [] {
      assert actions[..1][1..] == [];
    }
  }

  lemma LastStep(actions: seq<Action>)
    requires Trace(NEW, actions) && actions != []
    ensures var k := |actions| - 1;
            && Trace(NEW, actions[..k])
            && At(actions[..k], k) == At(actions, k)
            && Inv(At(actions, k)) && Enabled(At(actions, k), actions[k])
            && After(NEW, actions) == Next(At(actions, k), actions[k])
            && (forall i :: 0 <= i <= k ==> At(actions[..k], i) == At(actions, i))
  {
    hide Inv, Enabled, Next;
    var k := |actions| - 1;
    PrefixTrace(NEW, actions, k);
    assert actions[..k + 1] == actions && actions[..k][..k] == actions[..k];
    NewOk();
    TraceKeeps(NEW, actions[..k]);
    forall i | 0 <= i <= k ensures At(actions[..k], i) == At(actions, i) {
      assert actions[..k][..i] == actions[..i];
    }
  }

  lemma {:induction false} UsersAreTold(actions: seq<Action>, user: Id)
    requires Trace(NEW, actions)
    ensures var db := After(NEW, actions).db;
            && (user in db.users <==> exists i :: 0 <= i < |actions| && Registers(actions[i], user))
            && (Active(db, user) <==> ActiveNow(actions, user))
    decreases |actions|
  {
    hide Trace, Enabled, Inv, Next;
    if actions != [] {
      var k := |actions| - 1;
      var init := actions[..k];
      LastStep(actions);
      assert After(NEW, init) == At(actions, k);
      hide After;
      UsersAreTold(init, user);
      StepTells(At(actions, k), actions[k], user);
      assert forall i :: 0 <= i < k ==> init[i] == actions[i];
      if i :| 0 <= i < k && init[i] == SetUser(user, true) && (forall j :: i < j < k ==> !Registers(init[j], user))
              && !Registers(actions[k], user) {
        assert actions[i] == SetUser(user, true);
      }
      if Registers(actions[k], user) {
        assert Active(After(NEW, actions).db, user) <==> actions[k] == SetUser(user, true);
      } else {
        assert Active(After(NEW, actions).db, user) <==> Active(At(actions, k).db, user);
      }
    }
  }

  predicate Held(actions: seq<Action>, i: nat, id: Id)
    requires i < |actions|
  {
    LoggedIn(actions, i, id) && NotCleaned(actions, i, actions[i].expiresAt)
  }

  /** A session's row exists exactly if a known user logged in with it and no cleanup
      came after its end; it is as it was made, but for its revocation, which stands
      at the time of the first action that ended it. */
  predicate RowTold(actions: seq<Action>, w: World, id: Id) {
    && (id in w.db.sessions <==> exists i :: 0 <= i < |actions| && Held(actions, i, id))
    && (id in w.db.sessions ==> Made(actions, w.db.sessions[id], id) && Revoked(actions, w.db.sessions[id], id))
  }

  predicate Made(actions: seq<Action>, row: Session, id: Id) {
    forall i :: 0 <= i < |actions| && LoggedIn(actions, i, id) ==>
      row.user == actions[i].user && row.family == actions[i].family && row.expiresAt == actions[i].expiresAt
  }

  predicate Revoked(actions: seq<Action>, row: Session, id: Id) {
    && (row.revokedAt.Some? <==> exists i :: 0 <= i < |actions| && EndedAt(actions, i, id))
    && (forall i :: 0 <= i < |actions| && FirstEnd(actions, i, id) ==> row.revokedAt == Some(actions[i].now))
  }

  predicate Known(actions: seq<Action>, w: World, id: Id) {
    && (forall i :: 0 <= i < |actions| && LoggedIn(actions, i, id) ==> id in w.begun)
    && (forall i :: 0 <= i < |actions| && EndedAt(actions, i, id) ==> id in w.begun)
  }

  /** A prefix tells the same of what it holds. */
  lemma EarlierAlike(actions: seq<Action>, id: Id)
    requires Trace(NEW, actions) && actions != []
    ensures var k := |actions| - 1;
            forall i :: 0 <= i < k ==>
              && LoggedIn(actions, i, id) == LoggedIn(actions[..k], i, id)
              && EndedAt(actions, i, id) == EndedAt(actions[..k], i, id)
              && FirstEnd(actions, i, id) == FirstEnd(actions[..k], i, id)
  {
    hide Trace, After, Ends;
    LastStep(actions);
    var k := |actions| - 1;
    var init := actions[..k];
    assert forall i :: 0 <= i < k ==> init[i] == actions[i];
    forall i | 0 <= i < k
      ensures LoggedIn(actions, i, id) == LoggedIn(init, i, id) && EndedAt(actions, i, id) == EndedAt(init, i, id)
    {
      assert At(init, i) == At(actions, i);
      if j :| actions[i].Login? && 0 <= j < i && Registers(actions[j], actions[i].user) {
        assert Registers(init[j], init[i].user);
      }
      if j :| init[i].Login? && 0 <= j < i && Registers(init[j], init[i].user) {
        assert Registers(actions[j], actions[i].user);
      }
    }
  }

  lemma KnownStep(actions: seq<Action>, id: Id)
    requires Trace(NEW, actions) && actions != []
    requires Known(actions[..|actions| - 1], At(actions, |actions| - 1), id)
    ensures Known(actions, After(NEW, actions), id)
  {
    hide Trace, After, ChainsOk, SpentOk, ReplayedOk, Replays, LoggedIn, EndedAt;
    LastStep(actions);
    EarlierAlike(actions, id);
    var k := |actions| - 1;
    var w := At(actions, k);
    BegunGrows(w, actions[k]);
    if LoggedIn(actions, k, id) {
      LoggedInIs(actions, k, id);
    }
    if EndedAt(actions, k, id) {
      EndedIs(actions, k, id);
    }
  }

  lemma LoggedInIs(actions: seq<Action>, i: nat, id: Id)
    requires i < |actions| && LoggedIn(actions, i, id)
    ensures actions[i].Login? && actions[i].id == id
  {
  }

  lemma EndedIs(actions: seq<Action>, i: nat, id: Id)
    requires i < |actions| && EndedAt(actions, i, id)
    ensures id in At(actions, i).db.sessions && !actions[i].Login? && !actions[i].Clean? && !actions[i].SetUser?
  {
  }

  lemma BegunGrows(w: World, a: Action)
    requires DrawnOk(w)
    ensures w.begun <= Next(w, a).begun && (a.Login? ==> a.id in Next(w, a).begun)
    ensures w.db.sessions.Keys <= w.begun
  {
  }

  lemma HeldAlike(actions: seq<Action>, i: nat, id: Id)
    requires Trace(NEW, actions) && i < |actions| - 1 && LoggedIn(actions[..|actions| - 1], i, id)
    ensures LoggedIn(actions, i, id)
    ensures var a := actions[|actions| - 1];
            Held(actions, i, id) <==>
            Held(actions[..|actions| - 1], i, id) && !(a.Clean? && actions[i].expiresAt <= a.now)
  {
    hide Trace, LoggedIn, EndedAt;
    EarlierAlike(actions, id);
    LoggedInIs(actions, i, id);
    var k := |actions| - 1;
    var init := actions[..k];
    assert forall j :: 0 <= j < k ==> init[j] == actions[j];
  }

  lemma HeldStep(actions: seq<Action>, id: Id)
    requires Trace(NEW, actions) && actions != []
    requires Known(actions[..|actions| - 1], At(actions, |actions| - 1), id)
    requires RowTold(actions[..|actions| - 1], At(actions, |actions| - 1), id)
    ensures id in After(NEW, actions).db.sessions <==> exists i :: 0 <= i < |actions| && Held(actions, i, id)
  {
    hide Trace, After, Inv, Known, Revoked, LoggedIn, EndedAt, NotCleaned, Ends, Uses, Next, Enabled;
    LastStep(actions);
    EarlierAlike(actions, id);
    var k := |actions| - 1;
    var init, w := actions[..k], At(actions, k);
    assert forall i :: 0 <= i < k ==> init[i] == actions[i];
    StepTells(w, actions[k], id);
    LoginExactly(actions, id);
    if i :| 0 <= i < k && Held(actions, i, id) {
      HeldAlike(actions, i, id);
      assert Held(init, i, id);
    }
    if i :| id in w.db.sessions && 0 <= i < k && Held(init, i, id) {
      HeldAlike(actions, i, id);
    }
    if LoggedIn(actions, k, id) {
      LoggedInIs(actions, k, id);
      assert Held(actions, k, id) by { JustHeld(actions, id); }
    }
  }

  lemma JustHeld(actions: seq<Action>, id: Id)
    requires actions != [] && LoggedIn(actions, |actions| - 1, id)
    ensures Held(actions, |actions| - 1, id)
  {
  }

  /** The last action logs the session in exactly if it makes its row. */
  lemma LoginExactly(actions: seq<Action>, id: Id)
    requires Trace(NEW, actions) && actions != []
    requires Known(actions[..|actions| - 1], At(actions, |actions| - 1), id)
    ensures var k := |actions| - 1;
            var w := At(actions, k);
            && (LoggedIn(actions, k, id) <==> actions[k].Login? && actions[k].id == id && actions[k].user in w.db.users)
            && (LoggedIn(actions, k, id) ==>
                  id !in w.begun && id !in w.db.sessions
                  && forall i :: 0 <= i < k ==> !LoggedIn(actions, i, id) && !EndedAt(actions, i, id))
  {
    hide Trace, After, ChainsOk, SpentOk, ReplayedOk, EndedAt, Next;
    var k := |actions| - 1;
    LastStep(actions);
    EarlierAlike(actions, id);
    if actions[k].Login? {
      assert After(NEW, actions[..k]) == At(actions, k);
      UsersAreTold(actions[..k], actions[k].user);
      assert forall i :: 0 <= i < k ==> actions[..k][i] == actions[i];
    }
  }

  /** The row of a session that was there, or is made by the last action. */
  lemma RowStep(actions: seq<Action>, id: Id)
    requires Trace(NEW, actions) && actions != [] && id in After(NEW, actions).db.sessions
    requires Known(actions[..|actions| - 1], At(actions, |actions| - 1), id)
    requires RowTold(actions[..|actions| - 1], At(actions, |actions| - 1), id)
    ensures Made(actions, After(NEW, actions).db.sessions[id], id)
    ensures Revoked(actions, After(NEW, actions).db.sessions[id], id)
  {
    hide Trace, After, Inv, LoggedIn, EndedAt, FirstEnd, Next, Held, Known, Enabled, Made, Revoked;
    LastStep(actions);
    var k := |actions| - 1;
    var w := At(actions, k);
    StepTells(w, actions[k], id);
    LoginExactly(actions, id);
    if id in w.db.sessions {
      OldRowMade(actions, w.db.sessions[id], After(NEW, actions).db.sessions[id], id);
      OldRowRevoked(actions, w, After(NEW, actions).db.sessions[id], id);
    } else {
      NewRow(actions, After(NEW, actions).db.sessions[id], id);
    }
  }

  lemma OldRowMade(actions: seq<Action>, row: Session, row': Session, id: Id)
    requires Trace(NEW, actions) && actions != [] && Made(actions[..|actions| - 1], row, id)
    requires row'.user == row.user && row'.family == row.family && row'.expiresAt == row.expiresAt
    requires !LoggedIn(actions, |actions| - 1, id)
    ensures Made(actions, row', id)
  {
    hide Trace, LoggedIn, EndedAt;
    EarlierAlike(actions, id);
    assert forall i :: 0 <= i < |actions| - 1 ==> actions[..|actions| - 1][i] == actions[i];
  }

  lemma OldRowRevoked(actions: seq<Action>, w: World, row': Session, id: Id)
    requires Trace(NEW, actions) && actions != [] && w == At(actions, |actions| - 1) && id in w.db.sessions
    requires Revoked(actions[..|actions| - 1], w.db.sessions[id], id)
    requires row'.revokedAt ==
             if Ends(w, actions[|actions| - 1], id) && w.db.sessions[id].revokedAt.None?
             then Some(actions[|actions| - 1].now) else w.db.sessions[id].revokedAt
    ensures Revoked(actions, row', id)
  {
    hide Trace, After, LoggedIn, Ends;
    var k := |actions| - 1;
    EarlierAlike(actions, id);
    var init := actions[..k];
    assert forall i :: 0 <= i < k ==> init[i] == actions[i];
    assert EndedAt(actions, k, id) <==> Ends(w, actions[k], id);
    if EndedAt(actions, k, id) {
      EndedIs(actions, k, id);
    }
    if i :| 0 <= i < k && EndedAt(init, i, id) {
      assert EndedAt(actions, i, id);
      SomeFirst(init, id);
    }
  }

  lemma NewRow(actions: seq<Action>, row: Session, id: Id)
    requires actions != [] && LoggedIn(actions, |actions| - 1, id)
    requires forall i :: 0 <= i < |actions| - 1 ==> !LoggedIn(actions, i, id) && !EndedAt(actions, i, id)
    requires var a := actions[|actions| - 1];
             a.Login? && row == Session(a.user, a.family, a.expiresAt, None, a.now)
    ensures Made(actions, row, id) && Revoked(actions, row, id)
  {
    hide LoggedIn;
    if EndedAt(actions, |actions| - 1, id) {
      EndedIs(actions, |actions| - 1, id);
    }
  }

  lemma {:induction false} SomeFirst(actions: seq<Action>, id: Id)
    requires exists i :: 0 <= i < |actions| && EndedAt(actions, i, id)
    ensures exists i :: 0 <= i < |actions| && FirstEnd(actions, i, id)
  {
    hide EndedAt;
    var i :| 0 <= i < |actions| && EndedAt(actions, i, id);
    while !FirstEnd(actions, i, id)
      invariant 0 <= i < |actions| && EndedAt(actions, i, id)
      decreases i
    {
      var j :| 0 <= j < i && EndedAt(actions, j, id);
      i := j;
    }
  }

  lemma {:induction false} RowsAreTold(actions: seq<Action>, id: Id)
    requires Trace(NEW, actions)
    ensures RowTold(actions, After(NEW, actions), id) && Known(actions, After(NEW, actions), id)
    decreases |actions|
  {
    hide Known, RowTold, Trace, Inv, Next;
    if actions == [] {
      NothingTold(id);
    } else {
      LastStep(actions);
      var k := |actions| - 1;
      RowsAreTold(actions[..k], id);
      assert After(NEW, actions[..k]) == At(actions, k);
      hide After;
      KnownStep(actions, id);
      HeldStep(actions, id);
      if id in After(NEW, actions).db.sessions {
        RowStep(actions, id);
      }
      RowIsTold(actions, After(NEW, actions), id);
    }
  }

  lemma NothingTold(id: Id)
    ensures RowTold([], After(NEW, []), id) && Known([], After(NEW, []), id)
  {
  }

  lemma RowIsTold(actions: seq<Action>, w: World, id: Id)
    requires id in w.db.sessions <==> exists i :: 0 <= i < |actions| && Held(actions, i, id)
    requires id in w.db.sessions ==> Made(actions, w.db.sessions[id], id) && Revoked(actions, w.db.sessions[id], id)
    ensures RowTold(actions, w, id)
  {
  }

  /** A session is valid exactly if its user logged in with it, it has not expired nor
      been cleaned up, it was never signed out, revoked with its user's sessions or
      hit by a replay in its family, and the user is active. */
  lemma ValidExactly(actions: seq<Action>, user: Id, id: Id, now: Time)
    requires Trace(NEW, actions)
    ensures Validates(After(NEW, actions).db, user, id, now) <==>
            && (exists i :: 0 <= i < |actions| && Held(actions, i, id)
                            && actions[i].user == user && now < actions[i].expiresAt)
            && (forall i :: 0 <= i < |actions| ==> !EndedAt(actions, i, id))
            && ActiveNow(actions, user)
  {
    hide Trace, After, Held, EndedAt, ActiveNow, Known;
    RowsAreTold(actions, id);
    UsersAreTold(actions, user);
    forall i | 0 <= i < |actions| && Held(actions, i, id) ensures LoggedIn(actions, i, id) {
      HeldIs(actions, i, id);
    }
  }

  lemma HeldIs(actions: seq<Action>, i: nat, id: Id)
    requires i < |actions| && Held(actions, i, id)
    ensures LoggedIn(actions, i, id)
  {
  }

  /** Signing out ends that session, revoking a user's sessions ends all of them, and
      a replay ends its family: nothing later validates such a session or issues a
      token for it. One that had ended before keeps the time; no other is touched
      but by a refresh. */
  lemma EndsForGood(before: seq<Action>, a: Action, after: seq<Action>, id: Id, user: Id, later: Time)
    requires Trace(NEW, before) && Enabled(After(NEW, before), a)
    requires Trace(Next(After(NEW, before), a), after) && Ends(After(NEW, before), a, id)
    ensures var w := After(NEW, before);
            var end := After(Next(w, a), after);
            && !Validates(end.db, user, id, later)
            && (id in end.chains ==> id in w.chains && end.chains[id] == w.chains[id])
    ensures var w, w' := After(NEW, before), Next(After(NEW, before), a);
            && w'.db.sessions.Keys == w.db.sessions.Keys
            && (forall other :: other in w.db.sessions ==>
                  w'.db.sessions[other] ==
                  if Ends(w, a, other) && w.db.sessions[other].revokedAt.None?
                  then w.db.sessions[other].(revokedAt := Some(a.now)) else w.db.sessions[other])
  {
    hide After, Trace, Ends, Inv, Next, Enabled, Validates;
    NewOk();
    TraceKeeps(NEW, before);
    var w := After(NEW, before);
    StepKeeps(w, a);
    EndsNow(w, a, id);
    EndsOnly(w, a, id);
    RevocationIsForGood(Next(w, a), after, id, user, later);
  }

  lemma EndsOnly(w: World, a: Action, id: Id)
    requires Inv(w) && Enabled(w, a) && Ends(w, a, id)
    ensures var w' := Next(w, a);
            && w'.db.sessions.Keys == w.db.sessions.Keys
            && (forall other :: other in w.db.sessions ==>
                  w'.db.sessions[other] ==
                  if Ends(w, a, other) && w.db.sessions[other].revokedAt.None?
                  then w.db.sessions[other].(revokedAt := Some(a.now)) else w.db.sessions[other])
  {
    hide Inv, Next, Enabled, Uses, Replays;
    EndsNow(w, a, id);
    var w' := Next(w, a);
    forall other
      ensures other in w'.db.sessions <==> other in w.db.sessions
      ensures other in w.db.sessions ==>
                w'.db.sessions[other] ==
                if Ends(w, a, other) && w.db.sessions[other].revokedAt.None?
                then w.db.sessions[other].(revokedAt := Some(a.now)) else w.db.sessions[other]
    {
      StepTells(w, a, other);
    }
  }

  /** An action that ends a session uses none, and issues no token. */
  lemma EndsNow(w: World, a: Action, id: Id)
    requires Inv(w) && Enabled(w, a) && Ends(w, a, id)
    ensures Dead(Next(w, a), id) && Next(w, a).chains == w.chains
    ensures forall other :: !Uses(w, a, other)
  {
    hide IsChain, Replays;
    StepTells(w, a, id);
    if a.Refresh? {
      ReplayExactly(w, a.hash, id);
      forall other ensures !Uses(w, a, other) {
        UsesExactly(w, a, other);
      }
    }
  }
}
