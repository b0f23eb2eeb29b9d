/** The pairing codes of internal/live/hub.go: which session a typed code joins, over any
    interleaving of minting, claiming, ending and sweeping. Times are nanoseconds. */
module HubCodes {
  import opened Prelude

  const SECOND: int := 1_000_000_000
  const PAIRING_CODE_TTL: int := 300 * SECOND
  const IDLE_TIMEOUT: int := 45 * SECOND
  const KEPT_AFTER_END: int := 60 * SECOND
  const MAX_SESSIONS: nat := 20
  const DRAWS: nat := 9

  datatype SessionId = SessionId(text: string)

  datatype ProjectId = ProjectId(text: string)

  datatype Code = Code(text: string)

  datatype State = Waiting | Connected | Ended

  datatype Session = Session(
    project: ProjectId, code: Code, state: State, expiresAt: int, lastSeen: int, endedAt: int)

  /** `minted` is every id ever given out, kept for the proofs only. */
  datatype Book = Book(sessions: map<SessionId, Session>, byCode: map<Code, SessionId>, minted: set<SessionId>)

  const EMPTY: Book := Book(map[], map[], {})

  predicate Expired(s: Session, now: int) {
    s.state == Waiting && now > s.expiresAt
  }

  predicate Idle(s: Session, now: int) {
    s.state == Connected && now - s.lastSeen > IDLE_TIMEOUT
  }

  predicate Due(s: Session, now: int) {
    Expired(s, now) || Idle(s, now)
  }

  predicate Stale(s: Session, now: int) {
    s.state == Ended && now - s.endedAt > KEPT_AFTER_END
  }

  function Over(s: Session, now: int): Session {
    s.(state := Ended, endedAt := now)
  }

  /** `endLocked`, as far as the book goes. */
  function EndOne(b: Book, id: SessionId, now: int): Book
    requires id in b.sessions
  {
    b.(sessions := b.sessions[id := Over(b.sessions[id], now)], byCode := b.byCode - {b.sessions[id].code})
  }

  function CodesOf(b: Book, ids: set<SessionId>): set<Code>
    requires ids <= b.sessions.Keys
  {
    set id | id in ids :: b.sessions[id].code
  }

  function AllDue(b: Book, now: int): set<SessionId> {
    set id | id in b.sessions && Due(b.sessions[id], now)
  }

  function Swept(b: Book, now: int): Book {
    Book(map id | id in b.sessions && !Stale(b.sessions[id], now) ::
           if Due(b.sessions[id], now) then Over(b.sessions[id], now) else b.sessions[id],
         b.byCode - CodesOf(b, AllDue(b, now)), b.minted)
  }

  /** The sweep when it has been to these sessions, in whatever order. */
  function PartlySwept(b: Book, done: set<SessionId>, now: int): Book {
    Book(map id | id in b.sessions && !(id in done && Stale(b.sessions[id], now)) ::
           if id in done && Due(b.sessions[id], now) then Over(b.sessions[id], now) else b.sessions[id],
         b.byCode - CodesOf(b, AllDue(b, now) * done), b.minted)
  }

  lemma SweepNone(b: Book, now: int)
    ensures PartlySwept(b, {}, now) == b
  {
    assert CodesOf(b, AllDue(b, now) * {}) == {};
  }

  lemma SweepAll(b: Book, now: int)
    ensures PartlySwept(b, b.sessions.Keys, now) == Swept(b, now)
  {
    assert AllDue(b, now) * b.sessions.Keys == AllDue(b, now);
  }

  lemma SweepOne(b: Book, done: set<SessionId>, id: SessionId, now: int)
    requires id in b.sessions && id !in done
    ensures var before := PartlySwept(b, done, now); var s := b.sessions[id];
            && id in before.sessions && before.sessions[id] == s
            && PartlySwept(b, done + {id}, now) ==
               if Due(s, now) then EndOne(before, id, now)
               else if Stale(s, now) then before.(sessions := before.sessions - {id})
               else before
  {
    var before, after := PartlySwept(b, done, now), PartlySwept(b, done + {id}, now);
    if Due(b.sessions[id], now) {
      assert after.sessions == before.sessions[id := Over(b.sessions[id], now)];
      assert after.byCode == before.byCode - {b.sessions[id].code};
    } else if Stale(b.sessions[id], now) {
      assert after.sessions == before.sessions - {id};
    } else {
      assert after.sessions == before.sessions;
    }
  }

  function LiveOf(b: Book, project: ProjectId): set<SessionId> {
    set id | id in b.sessions && b.sessions[id].project == project && b.sessions[id].state != Ended
  }

  /** The first of the drawn codes that no waiting session holds. */
  function FirstUnused(byCode: map<Code, SessionId>, draws: seq<Code>): (r: Option<Code>)
    ensures r.Some? ==> r.value in draws && r.value !in byCode
    ensures r.None? ==> forall c :: c in draws ==> c in byCode
  {
    if draws == [] then None
    else if draws[0] !in byCode then Some(draws[0])
    else FirstUnused(byCode, draws[1..])
  }

  datatype Result<T> = Ok(value: T) | TooManySessions | NoUnusedCode | NoSuchCode

  function Minting(b: Book, project: ProjectId, draws: seq<Code>): Result<Code> {
    if |LiveOf(b, project)| >= MAX_SESSIONS then TooManySessions
    else match FirstUnused(b.byCode, draws) case None => NoUnusedCode case Some(c) => Ok(c)
  }

  /** `Mint` with the id and the codes it draws; ids are never drawn twice. */
  function Minted(b: Book, project: ProjectId, id: SessionId, draws: seq<Code>, now: int): Book {
    var swept := Swept(b, now);
    var r := Minting(swept, project, draws);
    if !r.Ok? || id in b.minted then swept
    else
      Book(swept.sessions[id := Session(project, r.value, Waiting, now + PAIRING_CODE_TTL, 0, 0)],
           swept.byCode[r.value := id], swept.minted + {id})
  }

  function Claiming(b: Book, project: ProjectId, code: Code): Result<SessionId> {
    if code !in b.byCode then NoSuchCode
    else
      var id := b.byCode[code];
      if id !in b.sessions || b.sessions[id].state != Waiting || b.sessions[id].project != project then NoSuchCode
      else Ok(id)
  }

  /** `Claim` with the code as it is after normalising. */
  function Claimed(b: Book, project: ProjectId, code: Code, now: int): Book {
    var swept := Swept(b, now);
    var r := Claiming(swept, project, code);
    if !r.Ok? then swept
    else
      var s := swept.sessions[r.value];
      swept.(sessions := swept.sessions[r.value := s.(state := Connected, lastSeen := now)],
             byCode := swept.byCode - {s.code})
  }

  function EndedBy(b: Book, id: SessionId, now: int): Book {
    if id !in b.sessions || b.sessions[id].state == Ended then b else EndOne(b, id, now)
  }

  function Touched(b: Book, id: SessionId, now: int): Book {
    if id !in b.sessions then b else b.(sessions := b.sessions[id := b.sessions[id].(lastSeen := now)])
  }

  lemma OneLess(all: set<SessionId>, todo: set<SessionId>, id: SessionId)
    requires id in todo
    ensures |all - (todo - {id})| == |all - todo| + if id in all then 1 else 0
  {
    if id in all {
      assert all - (todo - {id}) == (all - todo) + {id};
    } else {
      assert all - (todo - {id}) == all - todo;
    }
  }

  // ----- the hub --------------------------------------------------------------------

  class Hub {
    var sessions: map<SessionId, Session>
    var byCode: map<Code, SessionId>
    ghost var minted: set<SessionId>

    ghost function Value(): Book
      reads this
    {
      Book(sessions, byCode, minted)
    }

    constructor ()
      ensures Value() == EMPTY
    {
      sessions, byCode, minted := map[], map[], {};
    }

    method EndLocked(id: SessionId, now: int)
      requires id in sessions
      modifies `sessions, `byCode
      ensures Value() == EndOne(old(Value()), id, now)
    {
      var s := sessions[id];
      sessions := sessions[id := s.(state := Ended, endedAt := now)];
      byCode := byCode - {s.code};
    }

    /** The body of the sweep's loop. */
    method SweepSession(id: SessionId, now: int)
      requires id in sessions
      modifies `sessions, `byCode
      ensures var b, s := old(Value()), old(sessions)[id];
              Value() ==
              if Due(s, now) then EndOne(b, id, now)
              else if Stale(s, now) then b.(sessions := b.sessions - {id})
              else b
    {
      var s := sessions[id];
      if Expired(s, now) || Idle(s, now) {
        EndLocked(id, now);
      } else if s.state == Ended && now - s.endedAt > KEPT_AFTER_END {
        sessions := sessions - {id};
      }
    }

    method SweepLocked(now: int)
      modifies `sessions, `byCode
      ensures Value() == Swept(old(Value()), now)
    {
      ghost var b, done := Value(), {};
      var todo := sessions.Keys;
      SweepNone(b, now);
      while todo != {}
        invariant todo !! done && todo + done == b.sessions.Keys
        invariant Value() == PartlySwept(b, done, now)
        decreases |todo|
      {
        var id :| id in todo;
        SweepOne(b, done, id, now);
        todo, done := todo - {id}, done + {id};
        SweepSession(id, now);
      }
      SweepAll(b, now);
    }

    method CountLive(project: ProjectId) returns (live: nat)
      ensures live == |LiveOf(Value(), project)|
    {
      live := 0;
      var todo := sessions.Keys;
      ghost var all := LiveOf(Value(), project);
      assert all - todo == {};
      while todo != {}
        invariant todo <= sessions.Keys && live == |all - todo|
        decreases |todo|
      {
        var id :| id in todo;
        OneLess(all, todo, id);
        if sessions[id].project == project && sessions[id].state != Ended {
          live := live + 1;
        }
        todo := todo - {id};
      }
      assert all - {} == all;
    }

    method Mint(project: ProjectId, id: SessionId, draws: seq<Code>, now: int) returns (r: Result<Code>)
      requires |draws| == DRAWS && id !in minted
      modifies this
      ensures Value() == Minted(old(Value()), project, id, draws, now)
      ensures r == Minting(Swept(old(Value()), now), project, draws)
    {
      SweepLocked(now);
      var live := CountLive(project);
      if live >= MAX_SESSIONS {
        return TooManySessions;
      }
      var attempt := 0;
      while draws[attempt] in byCode
        invariant attempt < DRAWS
        invariant FirstUnused(byCode, draws) == FirstUnused(byCode, draws[attempt..])
        decreases DRAWS - attempt
      {
        assert draws[attempt..][1..] == draws[attempt + 1..];
        if attempt == 8 {
          assert draws[attempt + 1..] == [];
          return NoUnusedCode;
        }
        attempt := attempt + 1;
      }
      var code := draws[attempt];
      sessions := sessions[id := Session(project, code, Waiting, now + PAIRING_CODE_TTL, 0, 0)];
      byCode := byCode[code := id];
      minted := minted + {id};
      r := Ok(code);
    }

    method Claim(project: ProjectId, code: Code, now: int) returns (r: Result<SessionId>)
      modifies `sessions, `byCode
      ensures Value() == Claimed(old(Value()), project, code, now)
      ensures r == Claiming(Swept(old(Value()), now), project, code)
    {
      SweepLocked(now);
      if code !in byCode {
        return NoSuchCode;
      }
      var id := byCode[code];
      if id !in sessions || sessions[id].state != Waiting {
        return NoSuchCode;
      }
      if sessions[id].project != project {
        return NoSuchCode;
      }
      var s := sessions[id];
      byCode := byCode - {s.code};
      sessions := sessions[id := s.(state := Connected, lastSeen := now)];
      r := Ok(id);
    }

    method End(id: SessionId, now: int)
      modifies `sessions, `byCode
      ensures Value() == EndedBy(old(Value()), id, now)
    {
      if id !in sessions || sessions[id].state == Ended {
        return;
      }
      EndLocked(id, now);
    }

    method Touch(id: SessionId, now: int)
      modifies `sessions
      ensures Value() == Touched(old(Value()), id, now)
    {
      if id in sessions {
        sessions := sessions[id := sessions[id].(lastSeen := now)];
      }
    }
  }

  // ----- what every run keeps -------------------------------------------------------

  datatype Step =
    | Mint(project: ProjectId, id: SessionId, draws: seq<Code>, now: int)
    | Claim(project: ProjectId, code: Code, now: int)
    | End(id: SessionId, now: int)
    | Touch(id: SessionId, now: int)
    | Sweep(now: int)

  function Next(b: Book, step: Step): Book {
    match step
    case Mint(project, id, draws, now) => Minted(b, project, id, draws, now)
    case Claim(project, code, now) => Claimed(b, project, code, now)
    case End(id, now) => EndedBy(b, id, now)
    case Touch(id, now) => Touched(b, id, now)
    case Sweep(now) => Swept(b, now)
  }

  function After(run: seq<Step>): Book
    decreases |run|
  {
    if run == [] then EMPTY else Next(After(run[..|run| - 1]), run[|run| - 1])
  }

  /** A code on file belongs to a session that is waiting under that code. */
  ghost predicate Agrees(b: Book) {
    && (forall c :: c in b.byCode ==>
          var id := b.byCode[c]; id in b.sessions && b.sessions[id].state == Waiting && b.sessions[id].code == c)
    && b.sessions.Keys <= b.minted
  }

  lemma StepAgrees(b: Book, step: Step)
    requires Agrees(b)
    ensures Agrees(Next(b, step))
  {}

  lemma {:induction false} RunAgrees(run: seq<Step>)
    ensures Agrees(After(run))
    decreases |run|
  {
    if run != [] {
      RunAgrees(run[..|run| - 1]);
      StepAgrees(After(run[..|run| - 1]), run[|run| - 1]);
    }
  }

  /** A code lets a device in exactly when a waiting session of the device's own project
      is on file under it and no session that carries it is due to be ended; the device
      joins that session. */
  lemma CodesLetInExactly(b: Book, project: ProjectId, code: Code, now: int)
    requires Agrees(b)
    ensures var r := Claiming(Swept(b, now), project, code);
            if code in b.byCode && b.sessions[b.byCode[code]].project == project
               && (forall id :: id in b.sessions && b.sessions[id].code == code ==> !Due(b.sessions[id], now))
            then r == Ok(b.byCode[code]) else r == NoSuchCode
  {
    forall id | id in b.sessions && b.sessions[id].code == code
      ensures Due(b.sessions[id], now) ==> code !in Swept(b, now).byCode
    {}
  }

  // ----- one device per session -----------------------------------------------------

  /** The session this step joins, if it joins one. */
  function JoinedNow(b: Book, step: Step): seq<SessionId> {
    if !step.Claim? then []
    else
      var r := Claiming(Swept(b, step.now), step.project, step.code);
      if r.Ok? then [r.value] else []
  }

  /** The sessions joined over a run, in order. */
  function Joined(run: seq<Step>): seq<SessionId>
    decreases |run|
  {
    if run == [] then []
    else
      var before, last := run[..|run| - 1], run[|run| - 1];
      Joined(before) + JoinedNow(After(before), last)
  }

  ghost predicate Taken(b: Book, ids: seq<SessionId>) {
    forall i :: 0 <= i < |ids| ==> ids[i] in b.minted && (ids[i] in b.sessions ==> b.sessions[ids[i]].state != Waiting)
  }

  lemma StepKeepsTaken(b: Book, ids: seq<SessionId>, step: Step)
    requires Agrees(b) && Taken(b, ids)
    ensures Taken(Next(b, step), ids)
  {
    forall i | 0 <= i < |ids|
      ensures var t := Next(b, step);
              ids[i] in t.minted && (ids[i] in t.sessions ==> t.sessions[ids[i]].state != Waiting)
    {
      var id := ids[i];
      assert id in b.minted && (id in b.sessions ==> b.sessions[id].state != Waiting);
    }
  }

  lemma JoinedIsTaken(b: Book, ids: seq<SessionId>, step: Step)
    requires Agrees(b) && Taken(b, ids)
    ensures Taken(Next(b, step), JoinedNow(b, step))
    ensures forall i :: 0 <= i < |ids| ==> ids[i] !in JoinedNow(b, step)
  {}

  /** Over every run no two devices join the same session, whatever codes are drawn. */
  lemma {:induction false} NoSessionIsJoinedTwice(run: seq<Step>)
    ensures Taken(After(run), Joined(run))
    ensures forall i, j :: 0 <= i < j < |Joined(run)| ==> Joined(run)[i] != Joined(run)[j]
    decreases |run|
  {
    if run != [] {
      var before, last := run[..|run| - 1], run[|run| - 1];
      NoSessionIsJoinedTwice(before);
      RunAgrees(before);
      StepKeepsTaken(After(before), Joined(before), last);
      JoinedIsTaken(After(before), Joined(before), last);
    }
  }

  // ----- a project's share ------------------------------------------------------------

  lemma Fewer(a: set<SessionId>, b: set<SessionId>)
    requires a <= b
    ensures |a| <= |b|
  {
    if a != {} {
      var x :| x in a;
      Fewer(a - {x}, b - {x});
    }
  }

  lemma MintAddsOne(b: Book, project: ProjectId, id: SessionId, draws: seq<Code>, now: int, other: ProjectId)
    requires |LiveOf(Swept(b, now), other)| <= MAX_SESSIONS
    ensures |LiveOf(Minted(b, project, id, draws, now), other)| <= MAX_SESSIONS
  {
    var swept, minted := Swept(b, now), Minted(b, project, id, draws, now);
    if minted != swept {
      assert LiveOf(minted, other) <= LiveOf(swept, other) + if other == project then {id} else {};
      Fewer(LiveOf(minted, other), LiveOf(swept, other) + if other == project then {id} else {});
    }
  }

  /** No project ever holds more than its share of live sessions. */
  lemma {:induction false} ProjectsAreBounded(run: seq<Step>, project: ProjectId)
    ensures |LiveOf(After(run), project)| <= 20
    decreases |run|
  {
    if run == [] {
      assert LiveOf(EMPTY, project) == {};
    } else {
      var b, last := After(run[..|run| - 1]), run[|run| - 1];
      ProjectsAreBounded(run[..|run| - 1], project);
      if last.Mint? {
        Fewer(LiveOf(Swept(b, last.now), project), LiveOf(b, project));
        MintAddsOne(b, last.project, last.id, last.draws, last.now, project);
      } else {
        assert LiveOf(Next(b, last), project) <= LiveOf(b, project);
        Fewer(LiveOf(Next(b, last), project), LiveOf(b, project));
      }
    }
  }

  // ----- a code drawn again -----------------------------------------------------------

  /** The session is waiting and its code leads to it. */
  predicate Reachable(b: Book, id: SessionId) {
    && id in b.sessions && b.sessions[id].state == Waiting
    && b.sessions[id].code in b.byCode && b.byCode[b.sessions[id].code] == id
  }

  /** Ending a session strikes its code off, whoever holds it by then: every other session
      stays reachable exactly when the code is not on file for another. */
  lemma EndingSparesOthersExactly(b: Book, id: SessionId, now: int)
    requires Agrees(b) && id in b.sessions && b.sessions[id].state != Ended
    ensures (forall other :: other != id && Reachable(b, other) ==> Reachable(EndedBy(b, id, now), other)) <==>
            (b.sessions[id].code in b.byCode ==> b.byCode[b.sessions[id].code] == id)
  {
    var code := b.sessions[id].code;
    if code in b.byCode && b.byCode[code] != id {
      assert Reachable(b, b.byCode[code]) && !Reachable(EndedBy(b, id, now), b.byCode[code]);
    }
  }

  predicate BothLive(b: Book, i: SessionId, j: SessionId)
    requires i in b.sessions && j in b.sessions
  {
    i != j && b.sessions[i].state != Ended && b.sessions[j].state != Ended
  }

  /** Every waiting session can be claimed, and live sessions have different codes. */
  ghost predicate Orderly(b: Book) {
    && Agrees(b)
    && (forall id :: id in b.sessions && b.sessions[id].state == Waiting ==> Reachable(b, id))
    && (forall i, j :: i in b.sessions && j in b.sessions && BothLive(b, i, j) ==>
          b.sessions[i].code != b.sessions[j].code)
  }

  /** No draw is the code of a connected session; `Mint` itself asks about waiting ones only. */
  ghost predicate DrawsAfresh(b: Book, step: Step) {
    step.Mint? ==>
      forall id :: id in b.sessions && b.sessions[id].state == Connected ==> b.sessions[id].code !in step.draws
  }

  lemma SweepIsOrderly(b: Book, now: int)
    requires Orderly(b)
    ensures Orderly(Swept(b, now))
  {
    var t := Swept(b, now);
    forall id | id in t.sessions && t.sessions[id].state == Waiting
      ensures Reachable(t, id)
    {
      assert forall i :: i in AllDue(b, now) ==> BothLive(b, i, id);
    }
    assert forall i, j :: i in t.sessions && j in t.sessions && BothLive(t, i, j) ==> BothLive(b, i, j);
  }

  ghost predicate HeldByNone(b: Book, code: Code) {
    forall i :: i in b.sessions && b.sessions[i].state != Ended ==> b.sessions[i].code != code
  }

  lemma AddingIsOrderly(b: Book, id: SessionId, s: Session)
    requires Orderly(b) && id !in b.sessions && s.state == Waiting && HeldByNone(b, s.code) && s.code !in b.byCode
    ensures Orderly(Book(b.sessions[id := s], b.byCode[s.code := id], b.minted + {id}))
  {
    var t := Book(b.sessions[id := s], b.byCode[s.code := id], b.minted + {id});
    forall i | i in t.sessions && t.sessions[i].state == Waiting
      ensures Reachable(t, i)
    {
      assert i != id ==> Reachable(b, i);
    }
    assert forall i, j :: i in t.sessions && j in t.sessions && i != id && j != id && BothLive(t, i, j) ==>
      BothLive(b, i, j);
  }

  lemma UnusedIsHeldByNone(b: Book, draws: seq<Code>, now: int)
    requires Orderly(b) && FirstUnused(Swept(b, now).byCode, draws).Some?
    requires forall id :: id in b.sessions && b.sessions[id].state == Connected ==> b.sessions[id].code !in draws
    ensures var c := FirstUnused(Swept(b, now).byCode, draws).value;
            HeldByNone(Swept(b, now), c) && c !in Swept(b, now).byCode
  {
    var swept, c := Swept(b, now), FirstUnused(Swept(b, now).byCode, draws).value;
    SweepIsOrderly(b, now);
    forall i | i in swept.sessions && swept.sessions[i].state != Ended
      ensures swept.sessions[i].code != c
    {
      assert swept.sessions[i] == b.sessions[i];
      assert swept.sessions[i].state == Waiting ==> Reachable(swept, i);
    }
  }

  lemma MintIsOrderly(b: Book, project: ProjectId, id: SessionId, draws: seq<Code>, now: int)
    requires Orderly(b) && DrawsAfresh(b, Mint(project, id, draws, now))
    ensures Orderly(Minted(b, project, id, draws, now))
  {
    SweepIsOrderly(b, now);
    var swept, t := Swept(b, now), Minted(b, project, id, draws, now);
    if t != swept {
      var code := FirstUnused(swept.byCode, draws).value;
      UnusedIsHeldByNone(b, draws, now);
      AddingIsOrderly(swept, id, Session(project, code, Waiting, now + PAIRING_CODE_TTL, 0, 0));
    }
  }

  lemma ClaimIsOrderly(b: Book, project: ProjectId, code: Code, now: int)
    requires Orderly(b)
    ensures Orderly(Claimed(b, project, code, now))
  {
    SweepIsOrderly(b, now);
    StepAgrees(b, Claim(project, code, now));
    var swept, t := Swept(b, now), Claimed(b, project, code, now);
    assert forall i, j :: i in t.sessions && j in t.sessions && BothLive(t, i, j) ==> BothLive(swept, i, j);
  }

  lemma EndIsOrderly(b: Book, id: SessionId, now: int)
    requires Orderly(b)
    ensures Orderly(EndedBy(b, id, now))
  {
    StepAgrees(b, End(id, now));
    var t := EndedBy(b, id, now);
    assert forall i, j :: i in t.sessions && j in t.sessions && BothLive(t, i, j) ==> BothLive(b, i, j);
    assert t != b ==> forall i :: i in b.sessions && b.sessions[i].state == Waiting && i != id ==> BothLive(b, i, id);
  }

  lemma TouchIsOrderly(b: Book, id: SessionId, now: int)
    requires Orderly(b)
    ensures Orderly(Touched(b, id, now))
  {
    var t := Touched(b, id, now);
    assert forall i, j :: i in t.sessions && j in t.sessions && BothLive(t, i, j) ==> BothLive(b, i, j);
  }

  lemma StepIsOrderly(b: Book, step: Step)
    requires Orderly(b) && DrawsAfresh(b, step)
    ensures Orderly(Next(b, step))
  {
    match step
    case Mint(project, id, draws, now) => MintIsOrderly(b, project, id, draws, now);
    case Claim(project, code, now) => ClaimIsOrderly(b, project, code, now);
    case End(id, now) => EndIsOrderly(b, id, now);
    case Touch(id, now) => TouchIsOrderly(b, id, now);
    case Sweep(now) => SweepIsOrderly(b, now);
  }

  ghost predicate AlwaysAfresh(run: seq<Step>)
    decreases |run|
  {
    run != [] ==> AlwaysAfresh(run[..|run| - 1]) && DrawsAfresh(After(run[..|run| - 1]), run[|run| - 1])
  }

  /** As long as no code of a connected session is drawn again, every waiting session can
      be claimed in every state of every run. */
  lemma {:induction false} WaitingSessionsCanBeClaimed(run: seq<Step>)
    requires AlwaysAfresh(run)
    ensures Orderly(After(run))
    decreases |run|
  {
    if run != [] {
      WaitingSessionsCanBeClaimed(run[..|run| - 1]);
      StepIsOrderly(After(run[..|run| - 1]), run[|run| - 1]);
    }
  }

  // ----- exactly which waiting sessions can be claimed -------------------------------------

  /** Between these two states the session was ended, by `End` or by a sweep. */
  predicate EndsBetween(b: Book, t: Book, id: SessionId) {
    id in b.sessions && b.sessions[id].state != Ended && id in t.sessions && t.sessions[id].state == Ended
  }

  predicate Shares(b: Book, id: SessionId, other: SessionId) {
    other != id && id in b.sessions && other in b.sessions && b.sessions[other].code == b.sessions[id].code
  }

  /** Another session was ended that carried the code of this one. */
  ghost predicate Struck(b: Book, t: Book, id: SessionId) {
    exists other :: EndsBetween(b, t, other) && Shares(b, id, other)
  }

  ghost predicate EverStruck(run: seq<Step>, id: SessionId)
    decreases |run|
  {
    run != [] &&
    (EverStruck(run[..|run| - 1], id) || Struck(After(run[..|run| - 1]), After(run), id))
  }

  predicate IsWaiting(b: Book, id: SessionId) {
    id in b.sessions && b.sessions[id].state == Waiting
  }

  lemma SweepStrikes(b: Book, now: int, id: SessionId)
    requires Agrees(b) && IsWaiting(b, id) && IsWaiting(Swept(b, now), id)
    ensures Reachable(Swept(b, now), id) <==> Reachable(b, id) && !Struck(b, Swept(b, now), id)
  {
    var t, code := Swept(b, now), b.sessions[id].code;
    if Struck(b, t, id) {
      var other :| EndsBetween(b, t, other) && Shares(b, id, other);
      assert code in CodesOf(b, AllDue(b, now));
    } else if code in CodesOf(b, AllDue(b, now)) {
      var other :| other in AllDue(b, now) && b.sessions[other].code == code;
      assert EndsBetween(b, t, other) && Shares(b, id, other);
    }
  }

  /** The same sessions were ended, of those there were. */
  lemma SameStruck(b: Book, t: Book, u: Book, id: SessionId)
    requires forall other :: other in b.sessions ==> (EndsBetween(b, t, other) <==> EndsBetween(b, u, other))
    ensures Struck(b, t, id) <==> Struck(b, u, id)
  {
    if Struck(b, t, id) {
      var other :| EndsBetween(b, t, other) && Shares(b, id, other);
      assert EndsBetween(b, u, other);
    }
    if Struck(b, u, id) {
      var other :| EndsBetween(b, u, other) && Shares(b, id, other);
      assert EndsBetween(b, t, other);
    }
  }

  lemma MintStrikes(b: Book, project: ProjectId, newcomer: SessionId, draws: seq<Code>, now: int, id: SessionId)
    requires Agrees(b) && IsWaiting(b, id)
    requires IsWaiting(Minted(b, project, newcomer, draws, now), id)
    ensures var t := Minted(b, project, newcomer, draws, now);
            Reachable(t, id) <==> Reachable(b, id) && !Struck(b, t, id)
  {
    SweepStrikes(b, now, id);
    SameStruck(b, Swept(b, now), Minted(b, project, newcomer, draws, now), id);
  }

  lemma ClaimStrikes(b: Book, project: ProjectId, code: Code, now: int, id: SessionId)
    requires Agrees(b) && IsWaiting(b, id) && IsWaiting(Claimed(b, project, code, now), id)
    ensures var t := Claimed(b, project, code, now);
            Reachable(t, id) <==> Reachable(b, id) && !Struck(b, t, id)
  {
    SweepStrikes(b, now, id);
    StepAgrees(b, Sweep(now));
    SameStruck(b, Swept(b, now), Claimed(b, project, code, now), id);
  }

  lemma EndStrikes(b: Book, ended: SessionId, now: int, id: SessionId)
    requires Agrees(b) && IsWaiting(b, id) && IsWaiting(EndedBy(b, ended, now), id)
    ensures var t := EndedBy(b, ended, now);
            Reachable(t, id) <==> Reachable(b, id) && !Struck(b, t, id)
  {
    var t := EndedBy(b, ended, now);
    if t != b && Shares(b, id, ended) {
      assert EndsBetween(b, t, ended);
    }
  }

  lemma StepStrikes(b: Book, step: Step, id: SessionId)
    requires Agrees(b) && IsWaiting(b, id) && IsWaiting(Next(b, step), id)
    ensures Reachable(Next(b, step), id) <==> Reachable(b, id) && !Struck(b, Next(b, step), id)
  {
    match step
    case Mint(project, other, draws, now) => MintStrikes(b, project, other, draws, now, id);
    case Claim(project, code, now) => ClaimStrikes(b, project, code, now, id);
    case End(other, now) => EndStrikes(b, other, now, id);
    case Touch(_, _) =>
    case Sweep(now) => SweepStrikes(b, now, id);
  }

  /** A session that waits has waited since it was minted. */
  lemma WaitedBefore(b: Book, step: Step, id: SessionId)
    requires Agrees(b) && IsWaiting(Next(b, step), id)
    ensures if id in b.sessions then IsWaiting(b, id) else id !in b.minted && Reachable(Next(b, step), id)
  {}

  lemma {:induction false} StruckWasMinted(run: seq<Step>, id: SessionId)
    requires EverStruck(run, id)
    ensures id in After(run).minted
    decreases |run|
  {
    var before := run[..|run| - 1];
    if EverStruck(before, id) {
      StruckWasMinted(before, id);
    } else {
      RunAgrees(before);
    }
  }

  /** Over every run: a waiting session can be claimed exactly when no other session that
      carried its code has been ended since it was minted. */
  lemma {:induction false} ReachableExactlyUnlessStruck(run: seq<Step>, id: SessionId)
    requires IsWaiting(After(run), id)
    ensures Reachable(After(run), id) <==> !EverStruck(run, id)
    decreases |run|
  {
    if run != [] {
      var before, step := run[..|run| - 1], run[|run| - 1];
      var b := After(before);
      RunAgrees(before);
      WaitedBefore(b, step, id);
      if id in b.sessions {
        ReachableExactlyUnlessStruck(before, id);
        StepStrikes(b, step, id);
        assert EverStruck(run, id) <==> EverStruck(before, id) || Struck(b, After(run), id);
      } else {
        assert !Struck(b, After(run), id);
        if EverStruck(before, id) {
          StruckWasMinted(before, id);
        }
      }
    }
  }

  /** Otherwise one may be stranded: a code drawn again while the session it first paired
      is connected is minted, and is no longer valid once that session ends. */
  lemma RedrawnCodeIsStranded(
    b: Book, a: SessionId, id: SessionId, project: ProjectId, draws: seq<Code>, now: int, later: int)
    requires Agrees(b) && a in b.sessions && b.sessions[a].state == Connected && id !in b.minted
    requires now - b.sessions[a].lastSeen <= IDLE_TIMEOUT && now <= later <= now + PAIRING_CODE_TTL
    requires draws != [] && draws[0] == b.sessions[a].code && draws[0] !in b.byCode
    requires |LiveOf(Swept(b, now), project)| < MAX_SESSIONS
    ensures var t := EndedBy(Minted(b, project, id, draws, now), a, later);
            && Minting(Swept(b, now), project, draws) == Ok(draws[0])
            && id in t.sessions && t.sessions[id].state == Waiting && t.sessions[id].code == draws[0]
            && Claiming(Swept(t, later), project, draws[0]) == NoSuchCode
  {
    assert a != id;
  }

  // ----- when sessions come and go ------------------------------------------------------

  function MintedAt(run: seq<Step>, id: SessionId): int
    decreases |run|
  {
    if run == [] then 0
    else
      var before, last := run[..|run| - 1], run[|run| - 1];
      if id in After(before).minted then MintedAt(before, id) else last.now
  }

  /** When the device was last heard of: by joining, or by a touch. */
  function SeenAt(run: seq<Step>, id: SessionId): int
    decreases |run|
  {
    if run == [] then 0
    else
      var before, last := run[..|run| - 1], run[|run| - 1];
      if JoinedNow(After(before), last) == [id] || (last.Touch? && last.id == id) then last.now
      else SeenAt(before, id)
  }

  function EndedAt(run: seq<Step>, id: SessionId): int
    decreases |run|
  {
    if run == [] then 0
    else
      var before, last := run[..|run| - 1], run[|run| - 1];
      if EndsBetween(After(before), After(run), id) then last.now else EndedAt(before, id)
  }

  function MintedFor(run: seq<Step>, id: SessionId): Option<ProjectId>
    decreases |run|
  {
    if run == [] then None
    else
      var before, last := run[..|run| - 1], run[|run| - 1];
      if id in After(before).minted then MintedFor(before, id)
      else if last.Mint? then Some(last.project) else None
  }

  /** What a step does to the dates of a session that is there after it. */
  ghost predicate Dated(s: Session, minted: int, seen: int, ended: int, project: Option<ProjectId>) {
    && s.expiresAt == minted + 300_000_000_000
    && (s.state == Connected ==> s.lastSeen == seen)
    && (s.state == Ended ==> s.endedAt == ended)
    && project == Some(s.project)
  }

  lemma NewSessionIsDated(b: Book, step: Step, id: SessionId)
    requires Agrees(b) && id !in b.minted && id in Next(b, step).sessions
    ensures step.Mint? && step.id == id
    ensures Dated(Next(b, step).sessions[id], step.now, 0, 0, Some(step.project))
  {}

  lemma OldSessionStaysDated(
    b: Book, step: Step, id: SessionId, minted: int, seen: int, ended: int, project: Option<ProjectId>)
    requires Agrees(b) && id in b.sessions && id in Next(b, step).sessions
    requires Dated(b.sessions[id], minted, seen, ended, project)
    ensures Dated(Next(b, step).sessions[id], minted,
                  if JoinedNow(b, step) == [id] || (step.Touch? && step.id == id) then step.now else seen,
                  if EndsBetween(b, Next(b, step), id) then step.now else ended, project)
  {}

  lemma NoneComesBack(b: Book, step: Step, id: SessionId)
    requires Agrees(b) && id in b.minted && id in Next(b, step).sessions
    ensures id in b.sessions
  {}

  /** Over every run: a code lives five minutes from its minting, a session remembers when its
      device was last heard of and when it ended, and belongs to the project it was minted for. */
  lemma {:induction false} SessionsAreDated(run: seq<Step>, id: SessionId)
    requires id in After(run).sessions
    ensures Dated(After(run).sessions[id], MintedAt(run, id), SeenAt(run, id), EndedAt(run, id), MintedFor(run, id))
    decreases |run|
  {
    if run != [] {
      var before, step := run[..|run| - 1], run[|run| - 1];
      var b := After(before);
      RunAgrees(before);
      if id in b.minted {
        NoneComesBack(b, step, id);
        SessionsAreDated(before, id);
        OldSessionStaysDated(b, step, id, MintedAt(before, id), SeenAt(before, id), EndedAt(before, id),
                             MintedFor(before, id));
      } else {
        NewSessionIsDated(b, step, id);
      }
    }
  }

  /** Waiting for more than five minutes, or connected and silent for more than 45 seconds. */
  ghost predicate RanOut(run: seq<Step>, id: SessionId, now: int)
    requires id in After(run).sessions
  {
    var state := After(run).sessions[id].state;
    || (state == Waiting && now - MintedAt(run, id) > 300_000_000_000)
    || (state == Connected && now - SeenAt(run, id) > 45_000_000_000)
  }

  lemma DueExactlyWhenRanOut(run: seq<Step>, id: SessionId, now: int)
    requires id in After(run).sessions
    ensures Due(After(run).sessions[id], now) <==> RanOut(run, id, now)
  {
    SessionsAreDated(run, id);
  }

  lemma EndsWhenDue(b: Book, step: Step, id: SessionId)
    requires Agrees(b) && id in b.sessions
    ensures EndsBetween(b, Next(b, step), id) <==>
            b.sessions[id].state != Ended &&
            (if step.End? then step.id == id else !step.Touch? && Due(b.sessions[id], step.now))
  {}

  /** Exactly what ends a session, over every run: being ended, or being out of time when the
      hub looks, at a minting, a claim or a sweep. */
  lemma SessionsEndExactly(run: seq<Step>, step: Step, id: SessionId)
    requires id in After(run).sessions
    ensures EndsBetween(After(run), Next(After(run), step), id) <==>
            After(run).sessions[id].state != Ended &&
            (if step.End? then step.id == id
             else (step.Mint? || step.Claim? || step.Sweep?) && RanOut(run, id, step.now))
  {
    RunAgrees(run);
    EndsWhenDue(After(run), step, id);
    DueExactlyWhenRanOut(run, id, step.now);
  }

  lemma ForgottenWhenStale(b: Book, step: Step, id: SessionId)
    requires Agrees(b) && id in b.sessions
    ensures id !in Next(b, step).sessions <==> !step.End? && !step.Touch? && Stale(b.sessions[id], step.now)
  {}

  /** And exactly what makes the hub forget one: having ended more than a minute before it looks. */
  lemma SessionsAreForgottenExactly(run: seq<Step>, step: Step, id: SessionId)
    requires id in After(run).sessions
    ensures id !in Next(After(run), step).sessions <==>
            && (step.Mint? || step.Claim? || step.Sweep?)
            && After(run).sessions[id].state == Ended && step.now - EndedAt(run, id) > 60_000_000_000
  {
    RunAgrees(run);
    ForgottenWhenStale(After(run), step, id);
    SessionsAreDated(run, id);
  }

  predicate EverEnded(run: seq<Step>, id: SessionId)
    decreases |run|
  {
    run != [] && (EverEnded(run[..|run| - 1], id) || EndsBetween(After(run[..|run| - 1]), After(run), id))
  }

  lemma JoinsAsItSays(b: Book, step: Step, id: SessionId)
    requires Agrees(b) && id in b.sessions && id in Next(b, step).sessions
    ensures Next(b, step).sessions[id].state ==
            if EndsBetween(b, Next(b, step), id) then Ended
            else if JoinedNow(b, step) == [id] then Connected
            else b.sessions[id].state
  {}

  /** What state a session is in, over every run: waiting until it is joined, connected from
      then on, and ended once it has been ended. */
  lemma {:induction false} StatesAreAsTheyCame(run: seq<Step>, id: SessionId)
    requires id in After(run).sessions
    ensures After(run).sessions[id].state ==
            if EverEnded(run, id) then Ended else if id in Joined(run) then Connected else Waiting
    decreases |run|
  {
    if run != [] {
      var before, step := run[..|run| - 1], run[|run| - 1];
      RunAgrees(before);
      if id in After(before).minted {
        NoneComesBack(After(before), step, id);
        StatesAreAsTheyCame(before, id);
        JoinsAsItSays(After(before), step, id);
      } else {
        NewSessionIsDated(After(before), step, id);
        NoSessionIsJoinedTwice(before);
        NeverEndedYet(before, id);
        NewSessionWaits(After(before), step, id);
      }
    }
  }

  lemma NewSessionWaits(b: Book, step: Step, id: SessionId)
    requires Agrees(b) && id !in b.minted && id in Next(b, step).sessions
    ensures Next(b, step).sessions[id].state == Waiting && JoinedNow(b, step) == []
  {}

  lemma {:induction false} NeverEndedYet(run: seq<Step>, id: SessionId)
    requires id !in After(run).minted
    ensures !EverEnded(run, id)
    decreases |run|
  {
    if run != [] {
      RunAgrees(run[..|run| - 1]);
      MintedStays(After(run[..|run| - 1]), run[|run| - 1]);
      NeverEndedYet(run[..|run| - 1], id);
    }
  }

  lemma MintedStays(b: Book, step: Step)
    ensures b.minted <= Next(b, step).minted
  {}

  // ----- minting ------------------------------------------------------------------------

  lemma {:induction false} FirstUnusedIsFirst(byCode: map<Code, SessionId>, draws: seq<Code>, i: nat)
    requires i < |draws| && draws[i] !in byCode && forall j :: 0 <= j < i ==> draws[j] in byCode
    ensures FirstUnused(byCode, draws) == Some(draws[i])
  {
    if i > 0 {
      FirstUnusedIsFirst(byCode, draws[1..], i - 1);
    }
  }

  predicate IsFirstFree(b: Book, draws: seq<Code>, i: nat) {
    i < |draws| && draws[i] !in b.byCode && forall j :: 0 <= j < i ==> draws[j] in b.byCode
  }

  /** What `Mint` answers, once the hub has looked: too many when the project has 20 sessions
      that wait or are connected, no code when all that were drawn are on file, and otherwise
      the first that is not. */
  lemma MintAnswersExactly(b: Book, project: ProjectId, draws: seq<Code>, i: nat)
    ensures var live := set id | id in b.sessions && b.sessions[id].project == project
                              && (b.sessions[id].state == Waiting || b.sessions[id].state == Connected);
            && (Minting(b, project, draws) == TooManySessions <==> |live| >= 20)
            && (Minting(b, project, draws) == NoUnusedCode <==>
                  |live| < 20 && forall c :: c in draws ==> c in b.byCode)
            && (|live| < 20 && IsFirstFree(b, draws, i) ==> Minting(b, project, draws) == Ok(draws[i]))
  {
    var live := set id | id in b.sessions && b.sessions[id].project == project
                      && (b.sessions[id].state == Waiting || b.sessions[id].state == Connected);
    assert live == LiveOf(b, project);
    if IsFirstFree(b, draws, i) {
      FirstUnusedIsFirst(b.byCode, draws, i);
    }
  }

  /** And what it leaves: the new session waits under its code, and of the others nothing has
      changed that looking had not. */
  lemma MintFilesTheCode(b: Book, project: ProjectId, id: SessionId, draws: seq<Code>, now: int)
    requires Agrees(b) && id !in b.minted && Minting(Swept(b, now), project, draws).Ok?
    ensures var t, swept := Minted(b, project, id, draws, now), Swept(b, now);
            var code := Minting(swept, project, draws).value;
            && Reachable(t, id) && t.sessions[id].code == code && t.sessions[id].project == project
            && (forall other :: other != id ==>
                  (other in t.sessions <==> other in swept.sessions)
                  && (other in swept.sessions ==> t.sessions[other] == swept.sessions[other]))
            && (forall c :: c != code ==>
                  (c in t.byCode <==> c in swept.byCode) && (c in swept.byCode ==> t.byCode[c] == swept.byCode[c]))
  {}

  /** A claim that succeeds takes its code off file and connects its session, and changes
      nothing else that looking had not. */
  lemma ClaimConnectsOne(b: Book, project: ProjectId, code: Code, now: int)
    requires Agrees(b) && Claiming(Swept(b, now), project, code).Ok?
    ensures var t, swept := Claimed(b, project, code, now), Swept(b, now);
            var id := Claiming(swept, project, code).value;
            && id in t.sessions && t.sessions[id].state == Connected && t.sessions[id].lastSeen == now
            && t.byCode == swept.byCode - {code}
            && t.sessions.Keys == swept.sessions.Keys
            && (forall other :: other in swept.sessions && other != id ==> t.sessions[other] == swept.sessions[other])
  {
    StepAgrees(b, Sweep(now));
  }
}
