/** What each call to the process manager answers, from the tables it finds and what happens while it waits
    (agent/tools/process.py, ProcessManager). */
module ProcessAnswers {
  import opened Common
  import opened ProcessSessions

  // ---------------------------------------------------------------- what happened to one session

  /** The watcher of the session collected its output. */
  ghost predicate EndsIn(hs: seq<Happening>, id: Id) {
    exists k :: 0 <= k < |hs| && hs[k].Ends? && hs[k].id == id
  }

  ghost predicate ExitsIn(hs: seq<Happening>, id: Id) {
    exists k :: 0 <= k < |hs| && hs[k] == Exits(id)
  }

  /** What the watcher of the session collected; it does so once. */
  ghost predicate Collected(hs: seq<Happening>, id: Id, result: Result) {
    exists k :: 0 <= k < |hs| && hs[k] == Ends(id, result) && !EndsIn(hs[..k], id)
  }

  /** The session is owned and live, as given, and nothing is frozen for it. */
  ghost predicate IsLive(s: State, id: Id, session: Session) {
    (id, session) in s.active && id !in s.frozen
  }

  /** It is owned no more, and what its watcher froze is there. */
  ghost predicate IsOver(s: State, hs: seq<Happening>, id: Id) {
    id !in Keys(s.active) && id in s.frozen && Collected(hs, id, s.frozen[id])
  }

  ghost predicate IsAfter(u: State, hs: seq<Happening>, id: Id, session: Session) {
    if EndsIn(hs, id) then IsOver(u, hs, id)
    else IsLive(u, id, session.(running := session.running && !ExitsIn(hs, id)))
  }

  lemma LiveKey(s: State, l: Limits, id: Id, session: Session)
    requires Ok(s, l) && (id, session) in s.active
    ensures id in Keys(s.active) && id !in s.frozen && Get(s.active, id) == session
  {
    KeysAre(s.active, id);
    DistinctGet(s.active, id, session);
  }

  lemma DistinctGet<V>(t: Table<V>, id: Id, v: V)
    requires KeysDistinct(t) && (id, v) in t
    ensures id in Keys(t) && Get(t, id) == v
  {
    KeysAre(t, id);
    var i :| 0 <= i < |t| && t[i] == (id, v);
    var j :| 0 <= j < |t| && t[j] == (id, Get(t, id));
  }

  lemma {:induction false} StoppedOne(active: Table<Session>, x: Id, id: Id, session: Session)
    requires (id, session) in active
    ensures (id, if x == id then session.(running := false) else session) in Stopped(active, x)
  {
    var rest := Stopped(active[1..], x);
    if active[0] != (id, session) {
      StoppedOne(active[1..], x, id, session);
      var k :| 0 <= k < |rest| && rest[k] == (id, if x == id then session.(running := false) else session);
      assert Stopped(active, x)[k + 1] == rest[k];
    } else {
      assert Stopped(active, x)[0] == (id, if x == id then session.(running := false) else session);
    }
  }

  lemma OneMore(hs: seq<Happening>, id: Id)
    requires hs != []
    ensures var before, h := hs[..|hs| - 1], hs[|hs| - 1];
      && (EndsIn(hs, id) <==> EndsIn(before, id) || (h.Ends? && h.id == id))
      && (ExitsIn(hs, id) <==> ExitsIn(before, id) || h == Exits(id))
  {
    var before, h := hs[..|hs| - 1], hs[|hs| - 1];
    if EndsIn(before, id) {
      var k :| 0 <= k < |before| && before[k].Ends? && before[k].id == id;
      assert hs[k] == before[k];
    }
    if ExitsIn(before, id) {
      var k :| 0 <= k < |before| && before[k] == Exits(id);
      assert hs[k] == before[k];
    }
    if k :| 0 <= k < |hs| && k != |hs| - 1 && hs[k].Ends? && hs[k].id == id {
      assert before[k] == hs[k];
    }
    if k :| 0 <= k < |hs| && k != |hs| - 1 && hs[k] == Exits(id) {
      assert before[k] == hs[k];
    }
  }

  lemma CollectedStays(hs: seq<Happening>, id: Id, result: Result)
    requires hs != [] && Collected(hs[..|hs| - 1], id, result)
    ensures Collected(hs, id, result)
  {
    var before := hs[..|hs| - 1];
    var k :| 0 <= k < |before| && before[k] == Ends(id, result) && !EndsIn(before[..k], id);
    assert hs[k] == before[k] && hs[..k] == before[..k];
  }

  lemma CollectedLast(hs: seq<Happening>, id: Id, result: Result)
    requires hs != [] && hs[|hs| - 1] == Ends(id, result) && !EndsIn(hs[..|hs| - 1], id)
    ensures Collected(hs, id, result)
  {
  }

  /** One thing happens to a live session. */
  lemma LiveStep(s: State, h: Happening, l: Limits, id: Id, session: Session)
    requires Ok(s, l) && Positive(l) && IsLive(s, id, session) && !(h.Ends? && h.id == id)
    ensures IsLive(Happened(s, h, l), id, session.(running := session.running && h != Exits(id)))
  {
    if h.Exits? {
      StoppedOne(s.active, h.id, id, session);
    }
  }

  lemma EndStep(s: State, result: Result, l: Limits, id: Id, session: Session)
    requires Ok(s, l) && Positive(l) && IsLive(s, id, session)
    ensures var u := Happened(s, Ends(id, result), l); id !in Keys(u.active) && id in u.frozen && u.frozen[id] == result
  {
    LiveKey(s, l, id, session);
    RemoveKeys(s.active, id);
  }

  lemma OverStep(s: State, h: Happening, l: Limits, id: Id)
    requires Ok(s, l) && Positive(l) && id !in Keys(s.active) && id in s.frozen
    ensures var u := Happened(s, h, l); id !in Keys(u.active) && id in u.frozen && u.frozen[id] == s.frozen[id]
  {
    if h.Exits? {
      StoppedSame(s.active, h.id);
      assert Keys(Stopped(s.active, h.id)) == Keys(s.active);
    } else if h.id in Keys(s.active) {
      RemoveKeys(s.active, h.id);
    }
  }

  /** What is left of a live session after any happenings. */
  lemma {:induction false} SessionAfter(s: State, hs: seq<Happening>, l: Limits, id: Id, session: Session)
    requires Ok(s, l) && Positive(l) && (id, session) in s.active
    ensures IsAfter(AllHappened(s, hs, l), hs, id, session)
  {
    if hs == [] {
      LiveKey(s, l, id, session);
    } else {
      var before, h := hs[..|hs| - 1], hs[|hs| - 1];
      SessionAfter(s, before, l, id, session);
      HappeningsKeepOk(s, before, l);
      AfterOneMore(AllHappened(s, before, l), hs, before, h, l, id, session);
    }
  }

  lemma AfterOneMore(m: State, hs: seq<Happening>, before: seq<Happening>, h: Happening, l: Limits, id: Id, session: Session)
    requires Ok(m, l) && Positive(l) && hs != [] && before == hs[..|hs| - 1] && h == hs[|hs| - 1]
    requires IsAfter(m, before, id, session)
    ensures IsAfter(Happened(m, h, l), hs, id, session)
  {
    OneMore(hs, id);
    if EndsIn(before, id) {
      OverStep(m, h, l, id);
      CollectedStays(hs, id, m.frozen[id]);
    } else {
      var now := session.(running := session.running && !ExitsIn(before, id));
      if h.Ends? && h.id == id {
        EndStep(m, h.result, l, id, now);
        CollectedLast(hs, id, h.result);
      } else {
        LiveStep(m, h, l, id, now);
      }
    }
  }

  // ---------------------------------------------------------------- what a read answers

  /** What was collected if the watcher is done; otherwise the session still runs, unless it has exited, and then the
      result is built from the pending output. */
  ghost predicate IsReadAnswer(hs: seq<Happening>, id: Id, session: Session, built: Result, answer: Answer) {
    if EndsIn(hs, id) then answer.Exited? && Collected(hs, id, answer.result)
    else if session.running && !ExitsIn(hs, id) then answer == StillRunning
    else answer == Exited(built)
  }

  /** A session that still runs stays owned, by the same Turn; one that has answered is in no table of its own. */
  ghost predicate IsLeft(u: State, id: Id, session: Session, answer: Answer) {
    if answer == StillRunning then (id, session) in u.active else IsGone(u, id)
  }

  ghost predicate IsGone(u: State, id: Id) { id !in Keys(u.active) && id !in Keys(u.completed) }

  lemma ReadAnswers(m: State, hs: seq<Happening>, l: Limits, id: Id, session: Session, built: Result)
    requires Ok(m, l) && Positive(l) && IsAfter(m, hs, id, session)
    ensures var (u, answer) := Read(m, id, built, l);
      IsReadAnswer(hs, id, session, built, answer) && IsLeft(u, id, session, answer)
  {
    DroppingKeepsOk(m, id, l);
    if !EndsIn(hs, id) {
      LiveKey(m, l, id, session.(running := session.running && !ExitsIn(hs, id)));
    }
  }

  // ---------------------------------------------------------------- the two calls

  ghost function RunningIn(active: Table<Session>): set<(Id, Session)> { set x | x in active && x.1.running }

  /** The sessions that count against the limit. */
  lemma {:induction false} RunningCounts(active: Table<Session>)
    requires KeysDistinct(active)
    ensures Running(active) == |RunningIn(active)|
  {
    if active != [] {
      TailKeys(active);
      RunningCounts(active[1..]);
      FirstRuns(active);
    }
  }

  lemma FirstRuns(active: Table<Session>)
    requires active != [] && active[0].0 !in Keys(active[1..])
    ensures active[0] !in RunningIn(active[1..])
    ensures RunningIn(active) == RunningIn(active[1..]) + if active[0].1.running then {active[0]} else {}
  {
    KeysAre(active[1..], active[0].0);
  }

  /** Starting a session: refused when closed or full; gone again when the caller is cancelled while it waits; and
      otherwise answered as a read, by a session of the caller's own Turn. */
  ghost predicate IsExec(s: State, c: Call, l: Limits, u: State, answer: Answer)
    requires c.Exec?
  {
    var session := Session(c.owner, true);
    if s.closed then answer == Refused(ManagerClosed) && u == s
    else if |RunningIn(s.active)| >= l.sessions then answer == Refused(SessionLimit) && u == s
    else if !c.started then answer == Refused(NotStarted) && u.issued == s.issued
    else if c.cancelled then answer == Interrupted && IsGone(u, c.id)
    else IsReadAnswer(c.meanwhile, c.id, session, c.built, answer) && IsLeft(u, c.id, session, answer)
  }

  lemma ExecIsAnswered(s: State, c: Call, l: Limits)
    requires Ok(s, l) && Positive(l) && c.Exec? && Fresh(s, c)
    ensures IsExec(s, c, l, Step(s, c, l).0, Step(s, c, l).1)
  {
    RunningCounts(s.active);
    if !s.closed && Running(s.active) < l.sessions {
      HappeningsKeepOk(s, c.starting, l);
      var s1 := AllHappened(s, c.starting, l);
      if c.started {
        StartingKeepsOk(s1, c.id, c.owner, l);
        var began := Started(s1, c.id, c.owner);
        assert began.active[|s1.active|] == (c.id, Session(c.owner, true));
        HappeningsKeepOk(began, c.meanwhile, l);
        SessionAfter(began, c.meanwhile, l, c.id, Session(c.owner, true));
        var s2 := AllHappened(began, c.meanwhile, l);
        DroppingKeepsOk(s2, c.id, l);
        ReadAnswers(s2, c.meanwhile, l, c.id, Session(c.owner, true), c.built);
      }
    }
  }

  /** Writing to or polling a live session: a write to an exited one is refused; a cancelled caller takes the session
      with it only as its owner; a broken pipe leaves the session; and otherwise it is answered as a read. */
  ghost predicate IsWrite(s: State, c: Call, session: Session, u: State, answer: Answer)
    requires c.WriteStdin?
  {
    if c.chars && !session.running then answer == Refused(SessionDead) && u == s
    else if c.cancelled then
      answer == Interrupted && if session.owner == c.turn then IsGone(u, c.id) else IsAfter(u, c.meanwhile, c.id, session)
    else if c.chars && c.pipeBroken then answer == Refused(StdinClosed) && IsAfter(u, c.meanwhile, c.id, session)
    else IsReadAnswer(c.meanwhile, c.id, session, c.built, answer) && IsLeft(u, c.id, session, answer)
  }

  lemma WriteIsAnswered(s: State, c: Call, l: Limits, session: Session)
    requires Ok(s, l) && Positive(l) && c.WriteStdin? && (c.id, session) in s.active
    ensures !s.closed && IsWrite(s, c, session, Step(s, c, l).0, Step(s, c, l).1)
  {
    LiveKey(s, l, c.id, session);
    HappeningsKeepOk(s, c.meanwhile, l);
    SessionAfter(s, c.meanwhile, l, c.id, session);
    var s1 := AllHappened(s, c.meanwhile, l);
    DroppingKeepsOk(s1, c.id, l);
    ReadAnswers(s1, c.meanwhile, l, c.id, session, c.built);
  }

  /** Without a live session or a waiting result the call changes nothing, and tells a session that is over from an id
      that is not known. */
  lemma UnknownIsRefused(s: State, c: Call, l: Limits)
    requires Ok(s, l) && c.WriteStdin? && IsGone(s, c.id)
    ensures Step(s, c, l) == (s, Refused(
      if s.closed then ManagerClosed else if c.id in Keys(s.dead) then SessionDead else SessionNotFound))
  {
  }

  /** A closed manager holds nothing and refuses both calls. */
  lemma ClosedRefuses(s: State, l: Limits, c: Call)
    ensures var u := Step(s, Close, l).0;
      && u == s.(active := [], completed := [], dead := [], closed := true)
      && (c.Exec? || c.WriteStdin? ==> Step(u, c, l) == (u, Refused(ManagerClosed)))
  {
  }

  // ---------------------------------------------------------------- the other sessions

  /** A call touches no other session: what nothing happens to meanwhile is left as it was. */
  lemma OthersStay(s: State, c: Call, l: Limits, id: Id, session: Session)
    requires Ok(s, l) && Positive(l) && Fresh(s, c) && (c.Exec? || c.WriteStdin?) && id != c.id && (id, session) in s.active
    requires !EndsIn(c.meanwhile, id) && !ExitsIn(c.meanwhile, id)
    requires c.Exec? ==> !EndsIn(c.starting, id) && !ExitsIn(c.starting, id)
    ensures (id, session) in Step(s, c, l).0.active
  {
    if c.Exec? {
      OthersStayInExec(s, c, l, id, session);
    } else {
      SessionAfter(s, c.meanwhile, l, id, session);
      OthersStayInWrite(s, AllHappened(s, c.meanwhile, l), c, l, id, session);
    }
  }

  lemma OthersSurvive(s: State, gone: Id, built: Result, l: Limits, id: Id, session: Session)
    requires id != gone && (id, session) in s.active
    ensures (id, session) in Dropped(s, gone, l).active && (id, session) in Read(s, gone, built, l).0.active
  {
  }

  lemma OthersStayInWrite(s: State, s1: State, c: Call, l: Limits, id: Id, session: Session)
    requires c.WriteStdin? && s1 == AllHappened(s, c.meanwhile, l) && id != c.id
    requires (id, session) in s.active && (id, session) in s1.active
    ensures (id, session) in WriteStep(s, c, l).0.active
  {
    OthersSurvive(s, c.id, c.built, l, id, session);
    OthersSurvive(s1, c.id, c.built, l, id, session);
  }

  lemma OthersStayInExec(s: State, c: Call, l: Limits, id: Id, session: Session)
    requires Ok(s, l) && Positive(l) && c.Exec? && Fresh(s, c) && id != c.id && (id, session) in s.active
    requires !EndsIn(c.meanwhile, id) && !ExitsIn(c.meanwhile, id) && !EndsIn(c.starting, id) && !ExitsIn(c.starting, id)
    ensures (id, session) in ExecStep(s, c, l).0.active
  {
    SessionAfter(s, c.starting, l, id, session);
    HappeningsKeepOk(s, c.starting, l);
    var s1 := AllHappened(s, c.starting, l);
    if !s1.closed && Running(s1.active) < l.sessions {
      StartingKeepsOk(s1, c.id, c.owner, l);
      OthersStayBehind(Started(s1, c.id, c.owner), c, l, id, session);
    }
  }

  lemma OthersStayBehind(began: State, c: Call, l: Limits, id: Id, session: Session)
    requires Ok(began, l) && Positive(l) && c.Exec? && id != c.id && (id, session) in began.active
    requires !EndsIn(c.meanwhile, id) && !ExitsIn(c.meanwhile, id)
    ensures var s2 := AllHappened(began, c.meanwhile, l);
      (id, session) in Dropped(s2, c.id, l).active && (id, session) in Read(s2, c.id, c.built, l).0.active
  {
    SessionAfter(began, c.meanwhile, l, id, session);
    OthersSurvive(AllHappened(began, c.meanwhile, l), c.id, c.built, l, id, session);
  }
}
