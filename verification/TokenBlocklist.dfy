/** The token revocation blocklist of engramia/api/cloud_auth.py: an in-memory
    dictionary from token id to expiry, backed by the `revoked_jtis` table. */
module TokenBlocklist {
  import opened Options

  type Jti = string
  type Time = int   // ticks since the epoch

  datatype Token = Token(jti: Jti, exp: Time, isRefresh: bool)

  datatype Decoded = Accepted | TokenExpired | Revoked | WrongType

  function Unexpired(m: map<Jti, Time>, now: Time): map<Jti, Time> {
    map j | j in m && m[j] >= now :: m[j]
  }

  /** The rows that a start-up loads. */
  function StillRunning(m: map<Jti, Time>, now: Time): map<Jti, Time> {
    map j | j in m && m[j] > now :: m[j]
  }

  /** What a blocklist with these entries answers for j at time t. */
  predicate Blocks(m: map<Jti, Time>, j: Jti, t: Time) {
    j in m && t <= m[j]
  }

  function InsertIfAbsent(m: map<Jti, Time>, j: Jti, exp: Time): map<Jti, Time> {
    if j in m then m else m[j := exp]
  }

  // ----- the module's globals ------------------------------------------------------

  class Blocklist {
    var blocked: map<Jti, Time>
    var table: map<Jti, Time>

    constructor ()
      ensures blocked == map[] && table == map[]
    {
      blocked, table := map[], map[];
    }

    /** Start-up: reads every unexpired row; a failing read is tolerated. Where it
        succeeds, a fresh process refuses, at every later time, exactly what the
        table lists as unexpired; where it fails, it refuses nothing. */
    method Load(now: Time, reachable: bool)
      modifies `blocked
      ensures blocked == if reachable then old(blocked) + StillRunning(table, now) else old(blocked)
      ensures old(blocked) == map[] ==>
                forall j, t :: now < t ==> (Blocks(blocked, j, t) <==> reachable && Blocks(table, j, t))
      ensures old(blocked) == map[] ==>
                forall j :: Blocks(blocked, j, now) <==> reachable && Blocks(table, j, now) && table[j] != now
    {
      if reachable {
        blocked := blocked + StillRunning(table, now);
      }
    }

    /** Adds an entry and deletes the stale ones found by one scan. */
    method Remember(j: Jti, exp: Time, now: Time)
      modifies `blocked
      ensures blocked == Unexpired(old(blocked)[j := exp], now)
      ensures forall k, t :: now <= t ==>
                (Blocks(blocked, k, t) <==> if k == j then t <= exp else Blocks(old(blocked), k, t))
    {
      blocked := blocked[j := exp];
      ghost var before := blocked;
      var stale := set k | k in blocked && blocked[k] < now;
      while stale != {}
        invariant stale <= before.Keys && forall k :: k in stale ==> before[k] < now
        invariant blocked.Keys <= before.Keys && forall k :: k in blocked ==> blocked[k] == before[k]
        invariant forall k :: k in before ==> (k in blocked <==> k in stale || before[k] >= now)
        decreases |stale|
      {
        var k :| k in stale;
        blocked := blocked - {k};
        stale := stale - {k};
      }
    }

    /** Logout of one token: in memory first, then in the table, then the
        table's expired rows go. A failing database leaves the table alone. */
    method BlocklistToken(t: Token, now: Time, reachable: bool)
      modifies this
      ensures forall k, x :: now <= x ==>
                (Blocks(blocked, k, x) <==> if k == t.jti then x <= t.exp else Blocks(old(blocked), k, x))
      ensures forall k, x :: now <= x ==>
                (Blocks(table, k, x) <==>
                 if reachable && k == t.jti && k !in old(table) then x <= t.exp else Blocks(old(table), k, x))
      ensures blocked == Unexpired(old(blocked)[t.jti := t.exp], now)
      ensures table == if reachable then Unexpired(InsertIfAbsent(old(table), t.jti, t.exp), now) else old(table)
    {
      Remember(t.jti, t.exp, now);
      if reachable {
        table := InsertIfAbsent(table, t.jti, t.exp);
        table := Unexpired(table, now);
      }
    }

    method IsJtiBlocked(j: Jti, now: Time) returns (r: bool)
      modifies `blocked
      ensures r <==> Blocks(old(blocked), j, now)
      ensures blocked == if j in old(blocked) && old(blocked)[j] < now then old(blocked) - {j} else old(blocked)
    {
      if j !in blocked {
        return false;
      }
      if blocked[j] < now {
        blocked := blocked - {j};
        return false;
      }
      return true;
    }

    /** The signature library reads the clock once (verifyAt), the blocklist
        again later (checkAt). */
    method DecodeToken(t: Token, requireRefresh: bool, verifyAt: Time, checkAt: Time) returns (r: Decoded)
      modifies `blocked
      ensures r == TokenExpired <==> t.exp <= verifyAt
      ensures r == Revoked <==> verifyAt < t.exp && t.jti != "" && Blocks(old(blocked), t.jti, checkAt)
      ensures r == Accepted <==> (t.isRefresh == requireRefresh && verifyAt < t.exp
                                  && !(t.jti != "" && Blocks(old(blocked), t.jti, checkAt)))
    {
      if t.exp <= verifyAt {
        return TokenExpired;
      }
      if t.jti != "" {
        var b := IsJtiBlocked(t.jti, checkAt);
        if b {
          return Revoked;
        }
      }
      return if t.isRefresh == requireRefresh then Accepted else WrongType;
    }
  }

  // ----- runs ----------------------------------------------------------------------

  /** `issued` fixes the expiry that a signed token id carries; `boot` is the clock
      value the last start-up read, `loaded` whether its read of the table
      succeeded, `local` the ids logged out since then; `persisted` are the ids
      whose table write ever succeeded. */
  datatype World = World(
    issued: map<Jti, Time>,
    blocked: map<Jti, Time>,
    table: map<Jti, Time>,
    clock: Time,
    boot: Time,
    loaded: bool,
    local: set<Jti>,
    persisted: set<Jti>)

  /** The revoked ids that this process knows, or knew until they expired. */
  function Remembered(w: World): set<Jti> {
    w.local + (if w.loaded then w.persisted else {})
  }

  /** The separate critical sections and transactions; any interleaving. A
      sampled time is read before the step that uses it. */
  datatype Event =
    | RememberStep(jti: Jti, sampled: Time, at: Time)
    | PersistStep(jti: Jti, reachable: bool, at: Time)
    | PruneTable(sampled: Time, at: Time)
    | LazyDelete(jti: Jti, sampled: Time, at: Time)
    | Restart(sampled: Time, reachable: bool, at: Time)

  predicate Legal(w: World, e: Event) {
    && w.clock <= e.at
    && match e
       case RememberStep(j, sampled, at) => j in w.issued && sampled <= at
       case PersistStep(j, _, _) => j in w.issued && j in w.local
       case PruneTable(sampled, at) => sampled <= at
       case LazyDelete(j, sampled, at) => j in w.issued && w.issued[j] < sampled <= at
       case Restart(sampled, _, at) => w.boot <= sampled <= at
  }

  function Step(w: World, e: Event): World
    requires Legal(w, e)
  {
    var w1 := w.(clock := e.at);
    match e
    case RememberStep(j, sampled, _) =>
      w1.(blocked := Unexpired(w.blocked[j := w.issued[j]], sampled), local := w.local + {j})
    case PersistStep(j, reachable, _) =>
      if reachable then w1.(table := InsertIfAbsent(w.table, j, w.issued[j]), persisted := w.persisted + {j}) else w1
    case PruneTable(sampled, _) => w1.(table := Unexpired(w.table, sampled))
    case LazyDelete(j, _, _) => w1.(blocked := w.blocked - {j})
    case Restart(sampled, reachable, _) =>
      w1.(blocked := if reachable then StillRunning(w.table, sampled) else map[],
          boot := sampled, loaded := reachable, local := {})
  }

  ghost predicate LegalRun(w: World, es: seq<Event>)
    decreases |es|
  {
    es == [] || (Legal(w, es[0]) && LegalRun(Step(w, es[0]), es[1..]))
  }

  ghost function Run(w: World, es: seq<Event>): World
    requires LegalRun(w, es)
    decreases |es|
  {
    if es == [] then w else Run(Step(w, es[0]), es[1..])
  }

  function Initial(issued: map<Jti, Time>, now: Time): World {
    World(issued, map[], map[], now, now, true, {}, {})
  }

  ghost predicate Inv(w: World) {
    && w.boot <= w.clock && w.persisted <= w.issued.Keys && w.local <= w.issued.Keys
    && (forall j :: j in w.blocked ==> j in w.issued && w.blocked[j] == w.issued[j] && j in Remembered(w))
    && (forall j :: j in w.table ==> j in w.issued && w.table[j] == w.issued[j] && j in w.persisted)
    && (forall j :: j in Remembered(w) ==> j in w.blocked || w.issued[j] < w.clock || w.issued[j] <= w.boot)
    && (forall j :: j in w.persisted ==> j in w.table || w.issued[j] < w.clock)
  }

  lemma RememberKeepsInv(w: World, e: Event)
    requires Inv(w) && Legal(w, e) && e.RememberStep?
    ensures Inv(Step(w, e))
  {}

  lemma RestartKeepsInv(w: World, e: Event)
    requires Inv(w) && Legal(w, e) && e.Restart?
    ensures Inv(Step(w, e))
  {}

  lemma PersistKeepsInv(w: World, e: Event)
    requires Inv(w) && Legal(w, e) && e.PersistStep? && e.reachable
    ensures Inv(Step(w, e))
  {
    assert Remembered(Step(w, e)) == Remembered(w);
  }

  lemma PruneKeepsInv(w: World, e: Event)
    requires Inv(w) && Legal(w, e) && e.PruneTable?
    ensures Inv(Step(w, e))
  {
    assert Remembered(Step(w, e)) == Remembered(w);
  }

  lemma StepKeepsInv(w: World, e: Event)
    requires Inv(w) && Legal(w, e)
    ensures Inv(Step(w, e)) && Step(w, e).issued == w.issued
    ensures w.persisted <= Step(w, e).persisted
    ensures e.PersistStep? && e.reachable ==> e.jti in Step(w, e).persisted
  {
    match e
    case RememberStep(_, _, _) => RememberKeepsInv(w, e);
    case PersistStep(_, reachable, _) => if reachable { PersistKeepsInv(w, e); }
    case PruneTable(_, _) => PruneKeepsInv(w, e);
    case LazyDelete(_, _, _) =>
    case Restart(_, _, _) => RestartKeepsInv(w, e);
  }

  lemma {:induction false} RunKeepsInv(w: World, es: seq<Event>)
    requires Inv(w) && LegalRun(w, es)
    ensures Inv(Run(w, es)) && Run(w, es).issued == w.issued
    ensures w.persisted <= Run(w, es).persisted
    decreases |es|
  {
    if es == [] {
    } else {
      StepKeepsInv(w, es[0]);
      RunKeepsInv(Step(w, es[0]), es[1..]);
    }
  }

  /** What `_decode_token` does with a well-typed token: the expiry is checked
      at verifyAt, the blocklist of this state is read, and its entry is
      compared with the clock at checkAt. */
  predicate Accepts(w: World, j: Jti, verifyAt: Time, checkAt: Time)
    requires j in w.issued
  {
    verifyAt < w.issued[j] && !Blocks(w.blocked, j, checkAt)
  }

  /** Exactly when an issued token is accepted, in every reachable state. */
  lemma AcceptedIff(w: World, j: Jti, verifyAt: Time, checkAt: Time)
    requires Inv(w) && j in w.issued && w.boot <= verifyAt <= checkAt && w.clock <= checkAt
    ensures Accepts(w, j, verifyAt, checkAt) <==>
              verifyAt < w.issued[j] && (j in Remembered(w) ==> w.issued[j] < checkAt)
  {}

  /** A revoked token that the process knows of gets through exactly when its
      expiry falls strictly between the two clock readings of one decode; read
      once, the clock leaves no gap between pruning, reloading and the expiry
      check. */
  lemma RevokedIsRefused(w: World, j: Jti, verifyAt: Time, checkAt: Time)
    requires Inv(w) && j in Remembered(w) && w.boot <= verifyAt <= checkAt && w.clock <= checkAt
    ensures Accepts(w, j, verifyAt, checkAt) <==> verifyAt < w.issued[j] < checkAt
  {
    AcceptedIff(w, j, verifyAt, checkAt);
  }

  /** Such a decode exists: the token is logged out and its logout persisted, its
      expiry is checked one tick before it and the blocklist one tick after. */
  lemma SplitReadingAccepts(j: Jti, exp: Time) returns (es: seq<Event>)
    requires exp > 0
    ensures LegalRun(Initial(map[j := exp], 0), es)
    ensures var w := Run(Initial(map[j := exp], 0), es);
            && j in w.issued && j in w.persisted && j in Remembered(w) && w.clock < exp
            && Accepts(w, j, exp - 1, exp + 1)
  {
    es := [RememberStep(j, 0, 0), PersistStep(j, true, 0)];
    var w := Initial(map[j := exp], 0);
    var w1 := Step(w, es[0]);
    assert es[1..][1..] == [];
    assert Run(w1, es[1..]) == Step(w1, es[1]);
  }

  /** Whether a run contains the successful table write of j's logout. */
  predicate LoggedOut(es: seq<Event>, j: Jti) {
    exists i :: 0 <= i < |es| && es[i].PersistStep? && es[i].jti == j && es[i].reachable
  }

  lemma {:induction false} LoggedOutIsPersisted(w: World, es: seq<Event>, j: Jti)
    requires Inv(w) && LegalRun(w, es) && LoggedOut(es, j)
    ensures j in Run(w, es).persisted
    decreases |es|
  {
    StepKeepsInv(w, es[0]);
    var i :| 0 <= i < |es| && es[i].PersistStep? && es[i].jti == j && es[i].reachable;
    if i == 0 {
      RunKeepsInv(Step(w, es[0]), es[1..]);
    } else {
      assert es[1..][i - 1] == es[i];
      LoggedOutIsPersisted(Step(w, es[0]), es[1..], j);
    }
  }

  /** Whether the last start-up of the run loaded the table; `loaded` tells it of
      the one before the run. */
  predicate LastStartLoaded(loaded: bool, es: seq<Event>)
    decreases |es|
  {
    if es == [] then loaded
    else LastStartLoaded(if es[0].Restart? then es[0].reachable else loaded, es[1..])
  }

  /** The ids logged out since the last start-up. */
  function LoggedOutHere(local: set<Jti>, es: seq<Event>): set<Jti>
    decreases |es|
  {
    if es == [] then local
    else
      match es[0]
      case RememberStep(j, _, _) => LoggedOutHere(local + {j}, es[1..])
      case Restart(_, _, _) => LoggedOutHere({}, es[1..])
      case _ => LoggedOutHere(local, es[1..])
  }

  lemma {:induction false} RunTracksStart(w: World, es: seq<Event>)
    requires LegalRun(w, es)
    ensures Run(w, es).loaded == LastStartLoaded(w.loaded, es)
    ensures Run(w, es).local == LoggedOutHere(w.local, es)
    decreases |es|
  {
    if es == [] {
    } else {
      RunTracksStart(Step(w, es[0]), es[1..]);
    }
  }

  /** After a logout whose table write succeeded, whatever prunings, lazy
      deletions, other logouts and restarts come between, a decode that reads the
      clock as one time refuses the token if and only if the token has expired, or
      the last start-up loaded the table, or the token was logged out again since
      then. */
  lemma LogoutIsFinal(issued: map<Jti, Time>, start: Time, es: seq<Event>, j: Jti, now: Time)
    requires LegalRun(Initial(issued, start), es) && LoggedOut(es, j)
    requires now >= Run(Initial(issued, start), es).clock
    ensures Run(Initial(issued, start), es).issued == issued && j in issued
    ensures !Accepts(Run(Initial(issued, start), es), j, now, now) <==>
              issued[j] <= now || LastStartLoaded(true, es) || j in LoggedOutHere({}, es)
  {
    var w := Initial(issued, start);
    RunKeepsInv(w, es);
    LoggedOutIsPersisted(w, es, j);
    RunTracksStart(w, es);
    AcceptedIff(Run(w, es), j, now, now);
  }

  /** In particular, where every start-up loads, a persisted logout is final. */
  lemma LogoutIsFinalWhenLoaded(issued: map<Jti, Time>, start: Time, es: seq<Event>, j: Jti, now: Time)
    requires LegalRun(Initial(issued, start), es) && LoggedOut(es, j)
    requires now >= Run(Initial(issued, start), es).clock
    requires forall i :: 0 <= i < |es| && es[i].Restart? ==> es[i].reachable
    ensures j in Run(Initial(issued, start), es).issued
    ensures !Accepts(Run(Initial(issued, start), es), j, now, now)
  {
    LogoutIsFinal(issued, start, es, j, now);
    AllStartsLoad(es);
  }

  lemma {:induction false} AllStartsLoad(es: seq<Event>)
    requires forall i :: 0 <= i < |es| && es[i].Restart? ==> es[i].reachable
    ensures LastStartLoaded(true, es)
  {
    if es == [] {
    } else {
      assert forall i :: 0 <= i < |es| - 1 ==> es[1..][i] == es[i + 1];
      AllStartsLoad(es[1..]);
    }
  }

  /** The failing case: the logout is persisted, the next start-up cannot read the
      table, and the token is accepted at every time before its expiry. */
  lemma FailedLoadAccepts(j: Jti, exp: Time) returns (es: seq<Event>)
    requires exp > 0
    ensures LegalRun(Initial(map[j := exp], 0), es) && LoggedOut(es, j)
    ensures var w := Run(Initial(map[j := exp], 0), es);
            j in w.issued && forall t :: 0 <= t < exp ==> Accepts(w, j, t, t)
  {
    es := [RememberStep(j, 0, 0), PersistStep(j, true, 0), Restart(0, false, 0)];
    var w := Initial(map[j := exp], 0);
    var w1 := Step(w, es[0]);
    var w2 := Step(w1, es[1]);
    assert es[1..][1..] == [es[2]] && [es[2]][1..] == [];
    assert LegalRun(w2, [es[2]]) && Run(w2, [es[2]]) == Step(w2, es[2]);
    assert LegalRun(w1, es[1..]);
    assert Run(w1, es[1..]) == Step(w2, es[2]);
    assert es[1].PersistStep? && es[1].jti == j;
  }
}
