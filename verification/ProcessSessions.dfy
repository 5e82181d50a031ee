/** The three session tables of a process manager (agent/tools/process.py): sessions still owned, final
    results waiting for their one poll, and marks of sessions that are over. */
module ProcessSessions {
  import opened Common

  type Id = string
  type Result = string
  type TurnId = string

  // ---------------------------------------------------------------- ordered tables

  /** A dictionary that remembers the order its keys came in. */
  type Table<+V> = seq<(Id, V)>

  function Keys<V>(t: Table<V>): set<Id> {
    set i | 0 <= i < |t| :: t[i].0
  }

  ghost predicate KeysDistinct<V>(t: Table<V>) {
    forall i, j :: 0 <= i < j < |t| ==> t[i].0 != t[j].0
  }

  function Get<V>(t: Table<V>, id: Id): (v: V)
    requires id in Keys(t)
    ensures (id, v) in t
  {
    if t[0].0 == id then t[0].1
    else
      assert exists i :: 0 <= i < |t[1..]| && t[1..][i].0 == id by {
        var i :| 0 <= i < |t| && t[i].0 == id;
        assert t[1..][i - 1].0 == id;
      }
      Get(t[1..], id)
  }

  function Remove<V>(t: Table<V>, id: Id): (r: Table<V>)
    ensures |r| <= |t| && (forall x :: x in r ==> x in t && x.0 != id)
    ensures forall x :: x in t && x.0 != id ==> x in r
  {
    if t == [] then [] else
      (if t[0].0 == id then [] else [t[0]]) + Remove(t[1..], id)
  }

  lemma {:induction false} RemoveKeepsDistinct<V>(t: Table<V>, id: Id)
    requires KeysDistinct(t)
    ensures KeysDistinct(Remove(t, id))
  {
    if t != [] {
      RemoveKeepsDistinct(t[1..], id);
      var rest := Remove(t[1..], id);
      forall j | 0 <= j < |rest| ensures rest[j].0 != t[0].0 {
        assert rest[j] in t[1..];
      }
    }
  }

  lemma KeysAre<V>(t: Table<V>, id: Id)
    ensures id in Keys(t) <==> exists x :: x in t && x.0 == id
  {
    if x :| x in t && x.0 == id {
      var i :| 0 <= i < |t| && t[i] == x;
      assert t[i].0 == id;
    }
  }

  lemma RemoveKeys<V>(t: Table<V>, id: Id)
    requires KeysDistinct(t)
    ensures KeysDistinct(Remove(t, id)) && Keys(Remove(t, id)) == Keys(t) - {id}
  {
    RemoveKeepsDistinct(t, id);
    forall k: Id ensures k in Keys(Remove(t, id)) <==> k in Keys(t) && k != id {
      KeysAre(t, k);
      KeysAre(Remove(t, id), k);
    }
  }

  lemma AppendKeys<V>(t: Table<V>, id: Id, v: V)
    requires KeysDistinct(t) && id !in Keys(t)
    ensures KeysDistinct(t + [(id, v)]) && Keys(t + [(id, v)]) == Keys(t) + {id}
  {
    var u := t + [(id, v)];
    forall k: Id ensures k in Keys(u) <==> k in Keys(t) || k == id {
      KeysAre(t, k);
      KeysAre(u, k);
      assert u[|t|].0 == id;
    }
    forall i | 0 <= i < |t| ensures t[i].0 != id {
      assert t[i].0 in Keys(t);
    }
  }

  lemma TailKeys<V>(t: Table<V>)
    requires KeysDistinct(t) && t != []
    ensures KeysDistinct(t[1..]) && Keys(t[1..]) == Keys(t) - {t[0].0}
  {
    forall k: Id ensures k in Keys(t[1..]) <==> k in Keys(t) && k != t[0].0 {
      if k in Keys(t) && k != t[0].0 {
        var i :| 0 <= i < |t| && t[i].0 == k;
        assert t[1..][i - 1].0 == k;
      }
      if k in Keys(t[1..]) {
        var i :| 0 <= i < |t[1..]| && t[1..][i].0 == k;
        assert t[i + 1].0 == k;
      }
    }
  }

  // ---------------------------------------------------------------- the state and its steps

  /** `owner` is the Turn that created the session; `running` turns false when the process is seen to have
      exited, which may be before its watcher has collected the last output. */
  datatype Session = Session(owner: Option<TurnId>, running: bool)

  datatype Mark = Mark

  /** `frozen` is what each watcher froze as the final result. `issued` and `handed` record the ids ever
      given to a session and the ids whose final result has been returned. */
  datatype State = State(
    active: Table<Session>, completed: Table<Result>, dead: Table<Mark>, closed: bool,
    frozen: map<Id, Result>, issued: set<Id>, handed: set<Id>)

  datatype Limits = Limits(sessions: nat, completed: nat, dead: nat)

  ghost predicate Positive(l: Limits) {
    l.sessions > 0 && l.completed > 0 && l.dead > 0
  }

  function Running(active: Table<Session>): nat {
    if active == [] then 0 else (if active[0].1.running then 1 else 0) + Running(active[1..])
  }

  /** The id goes to the end of the marks; the oldest mark goes when there are too many. */
  function Marked(dead: Table<Mark>, id: Id, limit: nat): Table<Mark> {
    var all := Remove(dead, id) + [(id, Mark)];
    if |all| > limit then all[1..] else all
  }

  function Dropped(s: State, id: Id, l: Limits): State {
    if id !in Keys(s.active) && id !in Keys(s.completed) then s
    else s.(active := Remove(s.active, id), completed := Remove(s.completed, id), dead := Marked(s.dead, id, l.dead))
  }

  function Remembered(s: State, id: Id, result: Result, l: Limits): State {
    var all := Remove(s.completed, id) + [(id, result)];
    if |all| > l.completed then s.(completed := all[1..], dead := Marked(s.dead, all[0].0, l.dead))
    else s.(completed := all)
  }

  /** What the outside does to sessions: a process exits, and its watcher has collected its output. */
  datatype Happening = Exits(id: Id) | Ends(id: Id, result: Result)

  function Stopped(active: Table<Session>, id: Id): Table<Session> {
    if active == [] then []
    else [if active[0].0 == id then (id, active[0].1.(running := false)) else active[0]] + Stopped(active[1..], id)
  }

  function Happened(s: State, h: Happening, l: Limits): State {
    match h
    case Exits(id) => s.(active := Stopped(s.active, id))
    case Ends(id, result) =>
      if id !in Keys(s.active) then s
      else Remembered(s.(active := Remove(s.active, id), frozen := s.frozen[id := result]), id, result, l)
  }

  function AllHappened(s: State, hs: seq<Happening>, l: Limits): State {
    if hs == [] then s else Happened(AllHappened(s, hs[..|hs| - 1], l), hs[|hs| - 1], l)
  }

  datatype Refusal = ManagerClosed | SessionLimit | NotStarted | SessionDead | SessionNotFound | StdinClosed

  datatype Answer = Done | StillRunning | Exited(result: Result) | Refused(why: Refusal) | Interrupted

  function Started(s: State, id: Id, owner: Option<TurnId>): State {
    s.(active := s.active + [(id, Session(owner, true))], issued := s.issued + {id})
  }

  function HandedOut(s: State, id: Id): State {
    s.(handed := s.handed + {id})
  }

  /** A read's result: the frozen one when the watcher is done, otherwise built from what there is; an
      exited session is retired by the call that learns of it. */
  function Read(s: State, id: Id, built: Result, l: Limits): (State, Answer) {
    if id in s.frozen then (HandedOut(Dropped(s, id, l), id), Exited(s.frozen[id]))
    else if id in Keys(s.active) && Get(s.active, id).running then (s, StillRunning)
    else (HandedOut(Dropped(s, id, l), id), Exited(built))
  }

  /** `meanwhile` happens while a call waits for output, `built` is what a read makes of the pending output,
      and `cancelled` says the caller was cancelled while it waited. */
  datatype Call =
    | Exec(id: Id, owner: Option<TurnId>, starting: seq<Happening>, started: bool,
           meanwhile: seq<Happening>, cancelled: bool, built: Result)
    | WriteStdin(id: Id, chars: bool, turn: Option<TurnId>,
                 meanwhile: seq<Happening>, cancelled: bool, pipeBroken: bool, built: Result)
    | CancelActive(turn: Option<TurnId>)
    | Close
    | Elsewhere(happening: Happening)

  function ExecStep(s: State, c: Call, l: Limits): (State, Answer)
    requires c.Exec?
  {
    if s.closed then (s, Refused(ManagerClosed))
    else if Running(s.active) >= l.sessions then (s, Refused(SessionLimit))
    else
      var s1 := AllHappened(s, c.starting, l);
      if !c.started then (s1, Refused(NotStarted))
      else
        var s2 := AllHappened(Started(s1, c.id, c.owner), c.meanwhile, l);
        if c.cancelled then (Dropped(s2, c.id, l), Interrupted) else Read(s2, c.id, c.built, l)
  }

  function WriteActive(s: State, c: Call, l: Limits): (State, Answer)
    requires c.WriteStdin? && c.id in Keys(s.active)
  {
    if c.chars && !Get(s.active, c.id).running then (s, Refused(SessionDead))
    else
      var s1 := AllHappened(s, c.meanwhile, l);
      if c.cancelled then
        (if Get(s.active, c.id).owner == c.turn then Dropped(s1, c.id, l) else s1, Interrupted)
      else if c.chars && c.pipeBroken then (s1, Refused(StdinClosed))
      else Read(s1, c.id, c.built, l)
  }

  function WriteStep(s: State, c: Call, l: Limits): (State, Answer)
    requires c.WriteStdin?
  {
    if s.closed then (s, Refused(ManagerClosed))
    else if c.id in Keys(s.active) then WriteActive(s, c, l)
    else if c.id in Keys(s.completed) then
      var s1 := Dropped(s, c.id, l);
      if c.chars then (s1, Refused(SessionDead)) else (HandedOut(s1, c.id), Exited(Get(s.completed, c.id)))
    else (s, Refused(if c.id in Keys(s.dead) then SessionDead else SessionNotFound))
  }

  function Owned(active: Table<Session>, turn: Option<TurnId>): seq<Id> {
    if active == [] then []
    else (if turn == None || active[0].1.owner == turn then [active[0].0] else []) + Owned(active[1..], turn)
  }

  function CancelledOne(s: State, id: Id, l: Limits): State {
    s.(active := Remove(s.active, id), dead := Marked(s.dead, id, l.dead))
  }

  function Cancelled(s: State, ids: seq<Id>, l: Limits): State {
    if ids == [] then s else CancelledOne(Cancelled(s, ids[..|ids| - 1], l), ids[|ids| - 1], l)
  }

  function Shut(s: State): State {
    s.(active := [], completed := [], dead := [], closed := true)
  }

  /** One call, made when no other is under way; only `Exec` needs an id that is new. */
  function Step(s: State, c: Call, l: Limits): (State, Answer) {
    match c
    case Exec(_, _, _, _, _, _, _) => ExecStep(s, c, l)
    case WriteStdin(_, _, _, _, _, _, _) => WriteStep(s, c, l)
    case CancelActive(turn) => (Cancelled(s, Owned(s.active, turn), l), Done)
    case Close => (Shut(s), Done)
    case Elsewhere(h) => (Happened(s, h, l), Done)
  }

  ghost predicate Fresh(s: State, c: Call) {
    c.Exec? ==> c.id !in s.issued
  }

  // ---------------------------------------------------------------- what every step keeps

  ghost predicate TablesOk(s: State, l: Limits) {
    && KeysDistinct(s.active) && KeysDistinct(s.completed) && KeysDistinct(s.dead)
    && |s.completed| <= l.completed && |s.dead| <= l.dead
    && Running(s.active) <= l.sessions
  }

  /** The ids in each table, and the ids that have a frozen result or have been handed out. */
  datatype Places = Places(active: set<Id>, completed: set<Id>, dead: set<Id>,
                           frozen: set<Id>, handed: set<Id>, issued: set<Id>)

  function PlacesOf(s: State): Places {
    Places(Keys(s.active), Keys(s.completed), Keys(s.dead), s.frozen.Keys, s.handed, s.issued)
  }

  ghost predicate PlacesOk(p: Places) {
    && p.active !! p.completed !! p.dead
    && p.active + p.completed + p.dead + p.handed + p.frozen <= p.issued
    && p.handed !! p.active + p.completed
    && p.frozen !! p.active
    && p.completed <= p.frozen
  }

  /** What waits for its poll is what the watcher froze. */
  ghost predicate FrozenOk(completed: Table<Result>, frozen: map<Id, Result>) {
    forall x :: x in completed ==> x.0 in frozen && frozen[x.0] == x.1
  }

  ghost predicate Ok(s: State, l: Limits) {
    && TablesOk(s, l) && PlacesOk(PlacesOf(s)) && FrozenOk(s.completed, s.frozen)
    && (s.closed ==> s.active == [] && s.completed == [] && s.dead == [])
  }

  /** 0 not issued, 1 active, 2 completed, 3 dead, 4 forgotten. */
  function Stage(p: Places, id: Id): nat {
    if id !in p.issued then 0
    else if id in p.active then 1
    else if id in p.completed then 2
    else if id in p.dead then 3
    else 4
  }

  ghost predicate Onward(p: Places, q: Places) {
    && (forall id: Id :: Stage(p, id) <= Stage(q, id))
    && p.handed <= q.handed && p.issued <= q.issued
  }

  lemma MarkedKeys(dead: Table<Mark>, id: Id, limit: nat)
    requires KeysDistinct(dead) && limit > 0 && |dead| <= limit
    ensures KeysDistinct(Marked(dead, id, limit)) && |Marked(dead, id, limit)| <= limit
    ensures id in Keys(Marked(dead, id, limit)) && Keys(Marked(dead, id, limit)) <= Keys(dead) + {id}
  {
    var rest := Remove(dead, id);
    RemoveKeys(dead, id);
    AppendKeys(rest, id, Mark);
    var all := rest + [(id, Mark)];
    if |all| > limit {
      TailKeys(all);
      assert all[0] == rest[0] && rest[0].0 in Keys(rest);
    }
  }

  lemma {:induction false} RunningRemoved(active: Table<Session>, id: Id)
    ensures Running(Remove(active, id)) <= Running(active)
  {
    if active != [] {
      RunningRemoved(active[1..], id);
      var rest := Remove(active[1..], id);
      assert ([active[0]] + rest)[1..] == rest;
      assert [] + rest == rest;
    }
  }

  lemma {:induction false} RunningAppended(active: Table<Session>, id: Id, session: Session)
    ensures Running(active + [(id, session)]) <= Running(active) + 1
  {
    var u := active + [(id, session)];
    if active != [] {
      RunningAppended(active[1..], id, session);
      assert u[1..] == active[1..] + [(id, session)];
    } else {
      assert u[1..] == [];
    }
  }

  lemma {:induction false} StoppedSame(active: Table<Session>, id: Id)
    ensures |Stopped(active, id)| == |active|
    ensures forall i :: 0 <= i < |active| ==> Stopped(active, id)[i].0 == active[i].0
    ensures Running(Stopped(active, id)) <= Running(active)
  {
    if active != [] {
      StoppedSame(active[1..], id);
      var rest := Stopped(active[1..], id);
      assert Stopped(active, id)[1..] == rest;
    }
  }

  /** A session leaves the first two tables and is marked dead. */
  lemma BuryingKeepsOk(s: State, id: Id, l: Limits)
    requires Ok(s, l) && Positive(l) && (id in Keys(s.active) || id in Keys(s.completed))
    ensures Ok(Dropped(s, id, l), l) && Onward(PlacesOf(s), PlacesOf(Dropped(s, id, l)))
    ensures Stage(PlacesOf(Dropped(s, id, l)), id) == 3
  {
    RemoveKeys(s.active, id);
    RemoveKeys(s.completed, id);
    RunningRemoved(s.active, id);
    MarkedKeys(s.dead, id, l.dead);
    Buried(PlacesOf(s), PlacesOf(Dropped(s, id, l)), id);
  }

  lemma Buried(p: Places, q: Places, id: Id)
    requires PlacesOk(p) && (id in p.active || id in p.completed)
    requires q.active == p.active - {id} && q.completed == p.completed - {id}
    requires id in q.dead && q.dead <= p.dead + {id}
    requires q.frozen == p.frozen && q.handed == p.handed && q.issued == p.issued
    ensures PlacesOk(q) && Onward(p, q) && Stage(q, id) == 3
  {
  }

  lemma OnwardChains(p: Places, q: Places, r: Places)
    requires Onward(p, q) && Onward(q, r)
    ensures Onward(p, r)
  {
    forall id: Id ensures Stage(p, id) <= Stage(r, id) {
      assert Stage(p, id) <= Stage(q, id) <= Stage(r, id);
    }
  }

  /** The table of waiting results when a new one comes in. */
  lemma ResultsAppended(completed: Table<Result>, id: Id, result: Result, frozen: map<Id, Result>)
    requires KeysDistinct(completed) && id !in Keys(completed) && FrozenOk(completed, frozen)
    ensures var all := Remove(completed, id) + [(id, result)];
      KeysDistinct(all) && Keys(all) == Keys(completed) + {id} && |all| <= |completed| + 1 &&
      FrozenOk(all, frozen[id := result])
  {
    RemoveKeys(completed, id);
    AppendKeys(Remove(completed, id), id, result);
  }

  /** In order, but for one waiting result too many. */
  ghost predicate NearlyOk(s: State, l: Limits) {
    && KeysDistinct(s.active) && KeysDistinct(s.completed) && KeysDistinct(s.dead)
    && |s.completed| <= l.completed + 1 && |s.dead| <= l.dead && Running(s.active) <= l.sessions
    && PlacesOk(PlacesOf(s)) && FrozenOk(s.completed, s.frozen) && !s.closed
  }

  /** A session whose watcher is done moves to the waiting results ... */
  lemma MovingKeepsNearlyOk(s: State, id: Id, result: Result, l: Limits)
    requires Ok(s, l) && id in Keys(s.active)
    ensures var all := Remove(s.completed, id) + [(id, result)];
      var m := s.(active := Remove(s.active, id), completed := all, frozen := s.frozen[id := result]);
      NearlyOk(m, l) && Onward(PlacesOf(s), PlacesOf(m)) && Running(m.active) <= Running(s.active)
  {
    var all := Remove(s.completed, id) + [(id, result)];
    var m := s.(active := Remove(s.active, id), completed := all, frozen := s.frozen[id := result]);
    RemoveKeys(s.active, id);
    RunningRemoved(s.active, id);
    ResultsAppended(s.completed, id, result, s.frozen);
    MovedPlaces(s, m, id, result);
    Finished(PlacesOf(s), PlacesOf(m), id);
    NearlyOkFromParts(s, m, l);
  }

  lemma MovedPlaces(s: State, m: State, id: Id, result: Result)
    requires Keys(m.active) == Keys(s.active) - {id} && Keys(m.completed) == Keys(s.completed) + {id}
    requires m.dead == s.dead && m.frozen == s.frozen[id := result] && m.handed == s.handed && m.issued == s.issued
    ensures var p := PlacesOf(s);
      PlacesOf(m) == p.(active := p.active - {id}, completed := p.completed + {id}, frozen := p.frozen + {id})
  {
  }

  lemma NearlyOkFromParts(s: State, m: State, l: Limits)
    requires TablesOk(s, l) && m.dead == s.dead && m.closed == s.closed && !s.closed
    requires KeysDistinct(m.active) && Running(m.active) <= Running(s.active)
    requires KeysDistinct(m.completed) && |m.completed| <= |s.completed| + 1
    requires PlacesOk(PlacesOf(m)) && FrozenOk(m.completed, m.frozen)
    ensures NearlyOk(m, l)
  {
  }

  /** ... and the oldest of them may be marked dead. */
  lemma EvictingKeepsOk(m: State, l: Limits)
    requires NearlyOk(m, l) && Positive(l) && |m.completed| > l.completed
    ensures var u := m.(completed := m.completed[1..], dead := Marked(m.dead, m.completed[0].0, l.dead));
      Ok(u, l) && Onward(PlacesOf(m), PlacesOf(u))
  {
    var oldest := m.completed[0].0;
    TailKeys(m.completed);
    MarkedKeys(m.dead, oldest, l.dead);
    Buried(PlacesOf(m), PlacesOf(m.(completed := m.completed[1..], dead := Marked(m.dead, oldest, l.dead))), oldest);
  }

  lemma EndingKeepsOk(s: State, id: Id, result: Result, l: Limits)
    requires Ok(s, l) && Positive(l) && id in Keys(s.active)
    ensures var u := Happened(s, Ends(id, result), l);
      Ok(u, l) && Onward(PlacesOf(s), PlacesOf(u)) && Running(u.active) <= Running(s.active)
  {
    MovingKeepsNearlyOk(s, id, result, l);
    var all := Remove(s.completed, id) + [(id, result)];
    var m := s.(active := Remove(s.active, id), completed := all, frozen := s.frozen[id := result]);
    var u := Happened(s, Ends(id, result), l);
    if |all| > l.completed {
      EvictingKeepsOk(m, l);
      assert u == m.(completed := all[1..], dead := Marked(m.dead, all[0].0, l.dead));
      OnwardChains(PlacesOf(s), PlacesOf(m), PlacesOf(u));
    } else {
      assert u == m;
    }
  }

  lemma Finished(p: Places, q: Places, id: Id)
    requires PlacesOk(p) && id in p.active
    requires q == p.(active := p.active - {id}, completed := p.completed + {id}, frozen := p.frozen + {id})
    ensures PlacesOk(q) && Onward(p, q)
  {
  }

  lemma HappeningKeepsOk(s: State, h: Happening, l: Limits)
    requires Ok(s, l) && Positive(l)
    ensures var u := Happened(s, h, l);
      Ok(u, l) && Onward(PlacesOf(s), PlacesOf(u)) && Running(u.active) <= Running(s.active) &&
      u.issued == s.issued && u.handed == s.handed && u.closed == s.closed
  {
    if h.Ends? {
      if h.id in Keys(s.active) {
        EndingKeepsOk(s, h.id, h.result, l);
      }
    } else {
      StoppedSame(s.active, h.id);
      assert Keys(Stopped(s.active, h.id)) == Keys(s.active);
      assert PlacesOf(Happened(s, h, l)) == PlacesOf(s);
    }
  }

  lemma {:induction false} HappeningsKeepOk(s: State, hs: seq<Happening>, l: Limits)
    requires Ok(s, l) && Positive(l)
    ensures var u := AllHappened(s, hs, l);
      Ok(u, l) && Onward(PlacesOf(s), PlacesOf(u)) && Running(u.active) <= Running(s.active) &&
      u.issued == s.issued && u.handed == s.handed && u.closed == s.closed
  {
    if hs != [] {
      HappeningsKeepOk(s, hs[..|hs| - 1], l);
      var m := AllHappened(s, hs[..|hs| - 1], l);
      HappeningKeepsOk(m, hs[|hs| - 1], l);
      OnwardChains(PlacesOf(s), PlacesOf(m), PlacesOf(AllHappened(s, hs, l)));
    }
  }

  lemma StartingKeepsOk(s: State, id: Id, owner: Option<TurnId>, l: Limits)
    requires Ok(s, l) && id !in s.issued && Running(s.active) < l.sessions && !s.closed
    ensures Ok(Started(s, id, owner), l) && Onward(PlacesOf(s), PlacesOf(Started(s, id, owner)))
  {
    AppendKeys(s.active, id, Session(owner, true));
    RunningAppended(s.active, id, Session(owner, true));
    Opened(PlacesOf(s), PlacesOf(Started(s, id, owner)), id);
  }

  lemma Opened(p: Places, q: Places, id: Id)
    requires PlacesOk(p) && id !in p.issued
    requires q == p.(active := p.active + {id}, issued := p.issued + {id})
    ensures PlacesOk(q) && Onward(p, q)
  {
  }

  /** What a call may hand out: a final result whose id was never handed out before, and which is gone from
      the tables of live sessions and waiting results afterwards. */
  ghost predicate HandsOut(s: State, u: State, id: Id, answer: Answer) {
    if answer.Exited? then id !in s.handed && u.handed == s.handed + {id} else u.handed == s.handed
  }

  lemma HandingKeepsOk(s: State, id: Id, l: Limits)
    requires Ok(s, l) && id in s.issued && id !in Keys(s.active) + Keys(s.completed)
    ensures Ok(HandedOut(s, id), l) && Onward(PlacesOf(s), PlacesOf(HandedOut(s, id)))
  {
  }

  /** Retiring a session that may already be gone. */
  lemma DroppingKeepsOk(s: State, id: Id, l: Limits)
    requires Ok(s, l) && Positive(l)
    ensures Ok(Dropped(s, id, l), l) && Onward(PlacesOf(s), PlacesOf(Dropped(s, id, l)))
    ensures id !in Keys(Dropped(s, id, l).active) + Keys(Dropped(s, id, l).completed)
  {
    if id in Keys(s.active) || id in Keys(s.completed) {
      BuryingKeepsOk(s, id, l);
    }
  }

  lemma ReadingKeepsOk(s: State, id: Id, built: Result, l: Limits)
    requires Ok(s, l) && Positive(l) && id in s.issued && id !in s.handed
    ensures var (u, answer) := Read(s, id, built, l);
      Ok(u, l) && Onward(PlacesOf(s), PlacesOf(u)) && HandsOut(s, u, id, answer)
  {
    DroppingKeepsOk(s, id, l);
    var m := Dropped(s, id, l);
    HandingKeepsOk(m, id, l);
    OnwardChains(PlacesOf(s), PlacesOf(m), PlacesOf(HandedOut(m, id)));
  }

  lemma ExecKeepsOk(s: State, c: Call, l: Limits)
    requires Ok(s, l) && Positive(l) && c.Exec? && c.id !in s.issued
    ensures var (u, answer) := ExecStep(s, c, l);
      Ok(u, l) && Onward(PlacesOf(s), PlacesOf(u)) && HandsOut(s, u, c.id, answer)
  {
    if !s.closed && Running(s.active) < l.sessions {
      HappeningsKeepOk(s, c.starting, l);
      var s1 := AllHappened(s, c.starting, l);
      if c.started {
        StartingKeepsOk(s1, c.id, c.owner, l);
        var began := Started(s1, c.id, c.owner);
        HappeningsKeepOk(began, c.meanwhile, l);
        var s2 := AllHappened(began, c.meanwhile, l);
        OnwardChains(PlacesOf(s), PlacesOf(s1), PlacesOf(began));
        OnwardChains(PlacesOf(s), PlacesOf(began), PlacesOf(s2));
        DroppingKeepsOk(s2, c.id, l);
        ReadingKeepsOk(s2, c.id, c.built, l);
        OnwardChains(PlacesOf(s), PlacesOf(s2), PlacesOf(ExecStep(s, c, l).0));
      }
    }
  }

  lemma WritingActiveKeepsOk(s: State, c: Call, l: Limits)
    requires Ok(s, l) && Positive(l) && c.WriteStdin? && c.id in Keys(s.active)
    ensures var (u, answer) := WriteActive(s, c, l);
      Ok(u, l) && Onward(PlacesOf(s), PlacesOf(u)) && HandsOut(s, u, c.id, answer)
  {
    HappeningsKeepOk(s, c.meanwhile, l);
    var s1 := AllHappened(s, c.meanwhile, l);
    if c.cancelled {
      DroppingKeepsOk(s1, c.id, l);
      OnwardChains(PlacesOf(s), PlacesOf(s1), PlacesOf(Dropped(s1, c.id, l)));
    } else {
      ReadingKeepsOk(s1, c.id, c.built, l);
      OnwardChains(PlacesOf(s), PlacesOf(s1), PlacesOf(Read(s1, c.id, c.built, l).0));
    }
  }

  lemma WritingCompletedKeepsOk(s: State, c: Call, l: Limits)
    requires Ok(s, l) && Positive(l) && c.WriteStdin? && c.id in Keys(s.completed)
    ensures Ok(HandedOut(Dropped(s, c.id, l), c.id), l) && Ok(Dropped(s, c.id, l), l)
    ensures Onward(PlacesOf(s), PlacesOf(Dropped(s, c.id, l)))
    ensures Onward(PlacesOf(s), PlacesOf(HandedOut(Dropped(s, c.id, l), c.id)))
    ensures c.id !in s.handed && Dropped(s, c.id, l).handed == s.handed
  {
    DroppingKeepsOk(s, c.id, l);
    var s1 := Dropped(s, c.id, l);
    HandingKeepsOk(s1, c.id, l);
    OnwardChains(PlacesOf(s), PlacesOf(s1), PlacesOf(HandedOut(s1, c.id)));
  }

  lemma WriteKeepsOk(s: State, c: Call, l: Limits)
    requires Ok(s, l) && Positive(l) && c.WriteStdin?
    ensures var (u, answer) := WriteStep(s, c, l);
      Ok(u, l) && Onward(PlacesOf(s), PlacesOf(u)) && HandsOut(s, u, c.id, answer)
  {
    if c.id in Keys(s.active) {
      WritingActiveKeepsOk(s, c, l);
    } else if c.id in Keys(s.completed) {
      WritingCompletedKeepsOk(s, c, l);
    }
  }

  lemma {:induction false} OwnedAreActive(active: Table<Session>, turn: Option<TurnId>)
    requires KeysDistinct(active)
    ensures forall i :: 0 <= i < |Owned(active, turn)| ==> Owned(active, turn)[i] in Keys(active)
    ensures forall i, j :: 0 <= i < j < |Owned(active, turn)| ==> Owned(active, turn)[i] != Owned(active, turn)[j]
  {
    if active != [] {
      OwnedAreActive(active[1..], turn);
      TailKeys(active);
      var rest := Owned(active[1..], turn);
      assert active[0].0 in Keys(active);
      assert [] + rest == rest;
    }
  }

  lemma CancellingOneKeepsOk(s: State, id: Id, l: Limits)
    requires Ok(s, l) && Positive(l) && id in Keys(s.active)
    ensures Ok(CancelledOne(s, id, l), l) && Onward(PlacesOf(s), PlacesOf(CancelledOne(s, id, l)))
    ensures Keys(CancelledOne(s, id, l).active) == Keys(s.active) - {id}
  {
    BuryingKeepsOk(s, id, l);
    assert forall i :: 0 <= i < |s.completed| ==> s.completed[i].0 in Keys(s.completed);
    NothingToRemove(s.completed, id);
    assert CancelledOne(s, id, l) == Dropped(s, id, l);
    RemoveKeys(s.active, id);
  }

  /** `u` is `s` without the sessions `ids`. */
  ghost predicate Without(s: State, u: State, ids: seq<Id>, l: Limits) {
    && Ok(u, l) && Onward(PlacesOf(s), PlacesOf(u))
    && u.handed == s.handed && u.completed == s.completed
    && forall k :: k in Keys(u.active) <==> k in Keys(s.active) && k !in ids
  }

  lemma WithoutOneMore(s: State, m: State, before: seq<Id>, id: Id, l: Limits)
    requires Positive(l) && Without(s, m, before, l) && id in Keys(s.active) && id !in before
    ensures Without(s, CancelledOne(m, id, l), before + [id], l)
  {
    var u := CancelledOne(m, id, l);
    CancellingOneKeepsOk(m, id, l);
    OnwardChains(PlacesOf(s), PlacesOf(m), PlacesOf(u));
    forall k: Id ensures k in before + [id] <==> k in before || k == id {
    }
  }

  lemma {:induction false} CancellingKeepsOk(s: State, ids: seq<Id>, l: Limits)
    requires Ok(s, l) && Positive(l)
    requires forall i :: 0 <= i < |ids| ==> ids[i] in Keys(s.active)
    requires forall i, j :: 0 <= i < j < |ids| ==> ids[i] != ids[j]
    ensures Without(s, Cancelled(s, ids, l), ids, l)
  {
    if ids != [] {
      var before, id := ids[..|ids| - 1], ids[|ids| - 1];
      CancellingKeepsOk(s, before, l);
      WithoutOneMore(s, Cancelled(s, before, l), before, id, l);
      assert ids == before + [id];
    }
  }

  lemma {:induction false} NothingToRemove<V>(t: Table<V>, id: Id)
    requires forall i :: 0 <= i < |t| ==> t[i].0 != id
    ensures Remove(t, id) == t
  {
    if t != [] {
      NothingToRemove(t[1..], id);
      assert t == [t[0]] + t[1..];
    }
  }

  /** Every call keeps the tables in order, moves ids only onward, and hands out a final result only for an
      id that had none handed out before. */
  lemma StepKeepsOk(s: State, c: Call, l: Limits)
    requires Ok(s, l) && Positive(l) && Fresh(s, c)
    ensures var (u, answer) := Step(s, c, l);
      Ok(u, l) && Onward(PlacesOf(s), PlacesOf(u)) &&
      (answer.Exited? ==> (c.Exec? || c.WriteStdin?) && c.id !in s.handed && u.handed == s.handed + {c.id}) &&
      (!answer.Exited? ==> u.handed == s.handed)
  {
    match c
    case Exec(_, _, _, _, _, _, _) => ExecKeepsOk(s, c, l);
    case WriteStdin(_, _, _, _, _, _, _) => WriteKeepsOk(s, c, l);
    case CancelActive(turn) =>
      OwnedAreActive(s.active, turn);
      CancellingKeepsOk(s, Owned(s.active, turn), l);
    case Close => Emptied(s, l);
    case Elsewhere(h) => HappeningKeepsOk(s, h, l);
  }

  lemma Emptied(s: State, l: Limits)
    requires Ok(s, l)
    ensures Ok(Shut(s), l) && Onward(PlacesOf(s), PlacesOf(Shut(s)))
  {
  }

  // ---------------------------------------------------------------- whole runs

  function After(s: State, calls: seq<Call>, l: Limits): State {
    if calls == [] then s else Step(After(s, calls[..|calls| - 1], l), calls[|calls| - 1], l).0
  }

  ghost predicate IsRun(s: State, calls: seq<Call>, l: Limits) {
    calls != [] ==>
      IsRun(s, calls[..|calls| - 1], l) && Fresh(After(s, calls[..|calls| - 1], l), calls[|calls| - 1])
  }

  predicate HandsOutFinal(s: State, c: Call, id: Id, l: Limits) {
    (c.Exec? || c.WriteStdin?) && c.id == id && Step(s, c, l).1.Exited?
  }

  /** How many calls of the run returned the final result of a session. */
  function TimesHandedOut(s: State, calls: seq<Call>, id: Id, l: Limits): nat {
    if calls == [] then 0 else
      var before := calls[..|calls| - 1];
      TimesHandedOut(s, before, id, l) + if HandsOutFinal(After(s, before, l), calls[|calls| - 1], id, l) then 1 else 0
  }

  const NOTHING_YET := State([], [], [], false, map[], {}, {})

  lemma {:induction false} RunKeepsOk(s: State, calls: seq<Call>, l: Limits)
    requires Ok(s, l) && Positive(l) && IsRun(s, calls, l)
    ensures Ok(After(s, calls, l), l) && Onward(PlacesOf(s), PlacesOf(After(s, calls, l)))
  {
    if calls != [] {
      RunKeepsOk(s, calls[..|calls| - 1], l);
      var m := After(s, calls[..|calls| - 1], l);
      StepKeepsOk(m, calls[|calls| - 1], l);
      OnwardChains(PlacesOf(s), PlacesOf(m), PlacesOf(After(s, calls, l)));
    }
  }

  /** Over any run from the start, a session's final result is returned at most once. */
  lemma {:induction false} FinalResultAtMostOnce(calls: seq<Call>, id: Id, l: Limits)
    requires Positive(l) && IsRun(NOTHING_YET, calls, l)
    ensures TimesHandedOut(NOTHING_YET, calls, id, l) == if id in After(NOTHING_YET, calls, l).handed then 1 else 0
  {
    if calls != [] {
      var before := calls[..|calls| - 1];
      FinalResultAtMostOnce(before, id, l);
      RunKeepsOk(NOTHING_YET, before, l);
      StepKeepsOk(After(NOTHING_YET, before, l), calls[|calls| - 1], l);
    }
  }

  /** A result that waits is the one its watcher froze; the poll returns it and marks the session dead, and so
      does an attempt to write, which loses the result. */
  lemma PollReturnsFrozenResult(s: State, c: Call, l: Limits)
    requires Ok(s, l) && Positive(l) && c.WriteStdin? && c.id in Keys(s.completed)
    ensures Step(s, c, l).1 == if c.chars then Refused(SessionDead) else Exited(s.frozen[c.id])
    ensures Stage(PlacesOf(Step(s, c, l).0), c.id) == 3
  {
    BuryingKeepsOk(s, c.id, l);
  }

  /** Cancelling a Turn takes its sessions and no others, and leaves every waiting result. */
  lemma CancellingTakesOnlyOwned(s: State, turn: TurnId, l: Limits)
    requires Ok(s, l) && Positive(l)
    ensures var u := Step(s, CancelActive(Some(turn)), l).0;
      u.completed == s.completed &&
      forall id :: id in Keys(u.active) <==> id in Keys(s.active) && Get(s.active, id).owner != Some(turn)
  {
    OwnedAreActive(s.active, Some(turn));
    CancellingKeepsOk(s, Owned(s.active, Some(turn)), l);
    forall id | id in Keys(s.active)
      ensures id in Owned(s.active, Some(turn)) <==> Get(s.active, id).owner == Some(turn)
    {
      OwnedIff(s.active, turn, id);
    }
  }

  /** Cancelling for no Turn in particular leaves no session, and every waiting result. */
  lemma CancellingForNoneTakesAll(s: State, l: Limits)
    requires Ok(s, l) && Positive(l)
    ensures var u := Step(s, CancelActive(None), l).0;
      u.active == [] && u.completed == s.completed && u.handed == s.handed
  {
    OwnedAreActive(s.active, None);
    CancellingKeepsOk(s, Owned(s.active, None), l);
    AllAreOwned(s.active);
    NoKeys(Step(s, CancelActive(None), l).0.active);
  }

  lemma NoKeys<V>(t: Table<V>)
    ensures Keys(t) == {} <==> t == []
  {
    if t != [] {
      assert t[0].0 in Keys(t);
    }
  }

  lemma {:induction false} AllAreOwned(active: Table<Session>)
    ensures forall id :: id in Keys(active) ==> id in Owned(active, None)
  {
    if active != [] {
      AllAreOwned(active[1..]);
      forall id | id in Keys(active) ensures id in Owned(active, None) {
        if id != active[0].0 {
          var i :| 0 <= i < |active| && active[i].0 == id;
          assert active[1..][i - 1].0 == id;
        }
      }
    }
  }

  lemma AbsentKey<V>(t: Table<V>, id: Id)
    requires id !in Keys(t)
    ensures Remove(t, id) == t
  {
    assert forall i :: 0 <= i < |t| ==> t[i].0 in Keys(t);
    NothingToRemove(t, id);
  }

  /** A new final result goes behind the waiting ones; only when there are as many as may wait, the oldest goes. */
  lemma OnlyTheOldestResultGoes(s: State, id: Id, result: Result, l: Limits)
    requires Ok(s, l) && Positive(l) && id in Keys(s.active)
    ensures var u := Step(s, Elsewhere(Ends(id, result)), l).0;
      && u.completed == (if |s.completed| < l.completed then s.completed else s.completed[1..]) + [(id, result)]
      && (|s.completed| < l.completed ==> u.dead == s.dead)
      && (|s.completed| >= l.completed ==> s.completed[0].0 in Keys(u.dead))
      && Keys(u.active) == Keys(s.active) - {id} && id in u.frozen && u.frozen[id] == result
  {
    RemoveKeys(s.active, id);
    RememberedBehind(s.(active := Remove(s.active, id), frozen := s.frozen[id := result]), id, result, l);
  }

  lemma RememberedBehind(s: State, id: Id, result: Result, l: Limits)
    requires Positive(l) && id !in Keys(s.completed) && |s.completed| <= l.completed
    requires KeysDistinct(s.dead) && |s.dead| <= l.dead
    ensures var u := Remembered(s, id, result, l);
      && u == s.(completed := u.completed, dead := u.dead)
      && u.completed == (if |s.completed| < l.completed then s.completed else s.completed[1..]) + [(id, result)]
      && (|s.completed| < l.completed ==> u.dead == s.dead)
      && (|s.completed| >= l.completed ==> s.completed[0].0 in Keys(u.dead))
  {
    AbsentKey(s.completed, id);
    if |s.completed| >= l.completed {
      assert (s.completed + [(id, result)])[1..] == s.completed[1..] + [(id, result)];
      MarkedKeys(s.dead, s.completed[0].0, l.dead);
    }
  }

  /** A session that is over is marked behind the others; only when there are as many marks as may be kept, the
      oldest goes. */
  lemma OnlyTheOldestMarkGoes(s: State, c: Call, l: Limits)
    requires Ok(s, l) && Positive(l) && c.WriteStdin? && !s.closed && c.id in Keys(s.completed)
    ensures var u := Step(s, c, l).0;
      && u.dead == (if |s.dead| < l.dead then s.dead else s.dead[1..]) + [(c.id, Mark)]
      && Keys(u.completed) == Keys(s.completed) - {c.id} && u.active == s.active
  {
    MarkedBehind(s.dead, c.id, l.dead);
    AbsentKey(s.active, c.id);
    RemoveKeys(s.completed, c.id);
  }

  lemma MarkedBehind(dead: Table<Mark>, id: Id, limit: nat)
    requires id !in Keys(dead) && 0 < limit && |dead| <= limit
    ensures Marked(dead, id, limit) == (if |dead| < limit then dead else dead[1..]) + [(id, Mark)]
  {
    AbsentKey(dead, id);
    if |dead| >= limit {
      assert (dead + [(id, Mark)])[1..] == dead[1..] + [(id, Mark)];
    }
  }

  lemma {:induction false} OwnedIff(active: Table<Session>, turn: TurnId, id: Id)
    requires KeysDistinct(active) && id in Keys(active)
    ensures id in Owned(active, Some(turn)) <==> Get(active, id).owner == Some(turn)
  {
    OwnedAreActive(active[1..], Some(turn));
    TailKeys(active);
    var rest := Owned(active[1..], Some(turn));
    assert forall x :: x in rest ==> x in Keys(active[1..]);
    if active[0].0 != id {
      OwnedIff(active[1..], turn, id);
    }
  }

  // ---------------------------------------------------------------- the manager

  class ProcessManager {
    const limits: Limits
    var active: Table<Session>
    var completed: Table<Result>
    var dead: Table<Mark>
    var closed: bool
    var frozen: map<Id, Result>
    ghost var issued: set<Id>
    ghost var handed: set<Id>

    ghost function Now(): State
      reads this
    {
      State(active, completed, dead, closed, frozen, issued, handed)
    }

    ghost predicate Valid()
      reads this
    {
      Positive(limits) && Ok(Now(), limits)
    }

    constructor (limits: Limits)
      requires Positive(limits)
      ensures Valid() && Now() == NOTHING_YET && this.limits == limits
    {
      this.limits := limits;
      active, completed, dead, closed, frozen := [], [], [], false, map[];
      issued, handed := {}, {};
    }

    method MarkDead(id: Id)
      requires Positive(limits) && |dead| <= limits.dead
      modifies this`dead
      ensures dead == Marked(old(dead), id, limits.dead) && |dead| <= limits.dead
    {
      dead := Remove(dead, id) + [(id, Mark)];
      ghost var all := dead;
      while |dead| > limits.dead
        invariant dead == all || (|all| > limits.dead && dead == all[1..])
        invariant |all| <= limits.dead + 1
      {
        dead := dead[1..];
      }
    }

    method RememberCompleted(id: Id, result: Result)
      requires Positive(limits) && |completed| <= limits.completed && |dead| <= limits.dead
      modifies this`completed, this`dead
      ensures Now() == Remembered(old(Now()), id, result, limits)
    {
      completed := Remove(completed, id) + [(id, result)];
      ghost var all, marks := completed, dead;
      while |completed| > limits.completed
        invariant |all| <= limits.completed + 1
        invariant (completed == all && dead == marks)
          || (|all| > limits.completed && completed == all[1..] && dead == Marked(marks, all[0].0, limits.dead))
      {
        var evicted := completed[0].0;
        completed := completed[1..];
        MarkDead(evicted);
      }
    }

    /** A watcher has frozen the final result of its session. */
    method OnTerminal(id: Id, result: Result)
      requires Valid()
      modifies this`active, this`completed, this`dead, this`frozen
      ensures Valid() && Now() == Happened(old(Now()), Ends(id, result), limits)
    {
      ghost var s := Now();
      HappeningKeepsOk(s, Ends(id, result), limits);
      if id in Keys(active) {
        Retire(id, result);
      }
    }

    method Retire(id: Id, result: Result)
      requires Positive(limits) && |completed| <= limits.completed && |dead| <= limits.dead && id in Keys(active)
      modifies this`active, this`completed, this`dead, this`frozen
      ensures Now() == Happened(old(Now()), Ends(id, result), limits)
    {
      active, frozen := Remove(active, id), frozen[id := result];
      RememberCompleted(id, result);
    }

    method DropSession(id: Id)
      requires Positive(limits) && |dead| <= limits.dead
      modifies this`active, this`completed, this`dead
      ensures Now() == Dropped(old(Now()), id, limits)
    {
      if id in Keys(active) || id in Keys(completed) {
        active, completed := Remove(active, id), Remove(completed, id);
        MarkDead(id);
      }
    }

    /** What the outside does while a call waits. */
    method Await(meanwhile: seq<Happening>)
      requires Valid()
      modifies this`active, this`completed, this`dead, this`frozen
      ensures Valid() && Now() == AllHappened(old(Now()), meanwhile, limits)
    {
      for i := 0 to |meanwhile|
        invariant Valid() && Now() == AllHappened(old(Now()), meanwhile[..i], limits)
      {
        assert meanwhile[..i + 1][..i] == meanwhile[..i];
        match meanwhile[i]
        case Ends(id, result) => OnTerminal(id, result);
        case Exits(id) =>
          HappeningKeepsOk(Now(), Exits(id), limits);
          active := Stopped(active, id);
      }
      assert meanwhile[..|meanwhile|] == meanwhile;
    }

    /** The end of a read: its result, and retirement when the session has exited. */
    method Collect(id: Id, built: Result) returns (answer: Answer)
      requires Valid() && id in issued && id !in handed
      modifies this`active, this`completed, this`dead, this`handed
      ensures Valid() && (Now(), answer) == Read(old(Now()), id, built, limits)
    {
      ReadingKeepsOk(Now(), id, built, limits);
      if id in frozen {
        answer := Exited(frozen[id]);
      } else if id in Keys(active) && Get(active, id).running {
        return StillRunning;
      } else {
        answer := Exited(built);
      }
      DropSession(id);
      handed := handed + {id};
    }

    method Exec(id: Id, owner: Option<TurnId>, starting: seq<Happening>, started: bool,
                meanwhile: seq<Happening>, cancelled: bool, built: Result) returns (answer: Answer)
      requires Valid() && id !in issued
      modifies this
      ensures Valid()
      ensures (Now(), answer) == Step(old(Now()), Call.Exec(id, owner, starting, started, meanwhile, cancelled, built), limits)
    {
      if closed {
        return Refused(ManagerClosed);
      }
      if Running(active) >= limits.sessions {
        return Refused(SessionLimit);
      }
      HappeningsKeepOk(Now(), starting, limits);
      Await(starting);
      if !started {
        return Refused(NotStarted);
      }
      StartingKeepsOk(Now(), id, owner, limits);
      active, issued := active + [(id, Session(owner, true))], issued + {id};
      HappeningsKeepOk(Now(), meanwhile, limits);
      Await(meanwhile);
      if cancelled {
        DroppingKeepsOk(Now(), id, limits);
        DropSession(id);
        return Interrupted;
      }
      answer := Collect(id, built);
    }

    method WriteStdin(id: Id, chars: bool, turn: Option<TurnId>, meanwhile: seq<Happening>,
                      cancelled: bool, pipeBroken: bool, built: Result) returns (answer: Answer)
      requires Valid()
      modifies this
      ensures Valid()
      ensures (Now(), answer) == Step(old(Now()), Call.WriteStdin(id, chars, turn, meanwhile, cancelled, pipeBroken, built), limits)
    {
      if closed {
        return Refused(ManagerClosed);
      }
      if id in Keys(active) {
        answer := WriteToActive(id, chars, turn, meanwhile, cancelled, pipeBroken, built);
      } else if id in Keys(completed) {
        var result := Get(completed, id);
        WritingCompletedKeepsOk(Now(), Call.WriteStdin(id, chars, turn, meanwhile, cancelled, pipeBroken, built), limits);
        DropSession(id);
        if chars {
          return Refused(SessionDead);
        }
        handed := handed + {id};
        answer := Exited(result);
      } else {
        answer := Refused(if id in Keys(dead) then SessionDead else SessionNotFound);
      }
    }

    method WriteToActive(id: Id, chars: bool, turn: Option<TurnId>, meanwhile: seq<Happening>,
                         cancelled: bool, pipeBroken: bool, built: Result) returns (answer: Answer)
      requires Valid() && id in Keys(active)
      modifies this`active, this`completed, this`dead, this`frozen, this`handed
      ensures Valid()
      ensures (Now(), answer) == WriteActive(old(Now()), Call.WriteStdin(id, chars, turn, meanwhile, cancelled, pipeBroken, built), limits)
    {
      var session := Get(active, id);
      if chars && !session.running {
        return Refused(SessionDead);
      }
      HappeningsKeepOk(Now(), meanwhile, limits);
      Await(meanwhile);
      if cancelled {
        if session.owner == turn {
          DroppingKeepsOk(Now(), id, limits);
          DropSession(id);
        }
        return Interrupted;
      }
      if chars && pipeBroken {
        return Refused(StdinClosed);
      }
      answer := Collect(id, built);
    }

    method CancelOne(id: Id)
      requires Positive(limits) && |dead| <= limits.dead
      modifies this`active, this`dead
      ensures Now() == CancelledOne(old(Now()), id, limits) && |dead| <= limits.dead
    {
      active := Remove(active, id);
      MarkDead(id);
    }

    method CancelAll(ids: seq<Id>)
      requires Positive(limits) && |dead| <= limits.dead
      modifies this`active, this`dead
      ensures Now() == Cancelled(old(Now()), ids, limits)
    {
      ghost var s := Now();
      for i := 0 to |ids|
        invariant Now() == Cancelled(s, ids[..i], limits) && |dead| <= limits.dead
      {
        assert ids[..i + 1][..i] == ids[..i];
        CancelOne(ids[i]);
      }
      assert ids[..|ids|] == ids;
    }

    method CancelActive(turn: Option<TurnId>)
      requires Valid()
      modifies this`active, this`dead
      ensures Valid() && Now() == Step(old(Now()), Call.CancelActive(turn), limits).0
    {
      OwnedAreActive(active, turn);
      CancellingKeepsOk(Now(), Owned(active, turn), limits);
      CancelAll(Owned(active, turn));
    }

    method Close()
      requires Valid()
      modifies this`active, this`completed, this`dead, this`closed
      ensures Valid() && Now() == Step(old(Now()), Call.Close, limits).0
    {
      if closed {
        return;
      }
      closed := true;
      active, completed, dead := [], [], [];
    }
  }
}
