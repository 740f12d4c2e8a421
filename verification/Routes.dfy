/** The two-way strategy/session index behind routing by strategy. */
module Routes {
  import opened Wrappers

  type SessionId = nat
  type StrategyId = nat

  /** `owner` maps each routed strategy to its session, `owned` each session to its strategies. */
  datatype Table = Table(owner: map<StrategyId, SessionId>, owned: map<SessionId, set<StrategyId>>)

  const NO_ROUTES := Table(map[], map[])

  function Owned(t: Table, session: SessionId): set<StrategyId> {
    if session in t.owned then t.owned[session] else {}
  }

  function AddRoute(t: Table, session: SessionId, strategy: StrategyId): (Table, bool) {
    if strategy in t.owner then
      (t, false)
    else
      (Table(t.owner[strategy := session], t.owned[session := Owned(t, session) + {strategy}]), true)
  }

  function RemoveRoute(t: Table, session: SessionId, strategy: StrategyId): (Table, bool) {
    if strategy !in t.owner || t.owner[strategy] != session then
      (t, false)
    else
      (Table(t.owner - {strategy}, t.owned[session := Owned(t, session) - {strategy}]), true)
  }

  function RemoveAllRoutes(t: Table, session: SessionId): Table {
    if session !in t.owned then t else Table(t.owner - t.owned[session], t.owned - {session})
  }

  /** The two maps are inverse to each other; a reverse entry may be empty. */
  ghost predicate Inverse(t: Table) {
    forall k, s :: k in Owned(t, s) <==> k in t.owner && t.owner[k] == s
  }

  datatype Op =
    | Add(session: SessionId, strategy: StrategyId)
    | Remove(session: SessionId, strategy: StrategyId)
    | RemoveAll(session: SessionId)

  /** The table after an operation, and the answer given to the caller. */
  function Apply(t: Table, op: Op): (Table, bool) {
    match op
    case Add(session, strategy) => AddRoute(t, session, strategy)
    case Remove(session, strategy) => RemoveRoute(t, session, strategy)
    case RemoveAll(session) => (RemoveAllRoutes(t, session), true)
  }

  function ApplyAll(t: Table, ops: seq<Op>): Table {
    if ops == [] then t else Apply(ApplyAll(t, ops[..|ops| - 1]), ops[|ops| - 1]).0
  }

  // ---------- the reference: each strategy is a cell of its own ----------

  function OwnerIn(t: Table, strategy: StrategyId): Option<SessionId> {
    if strategy in t.owner then Some(t.owner[strategy]) else None
  }

  /** `op` asks for the strategy. */
  predicate Claims(op: Op, strategy: StrategyId) { op.Add? && op.strategy == strategy }

  /** `op` lets the strategy go when `session` holds it. */
  predicate Releases(op: Op, session: SessionId, strategy: StrategyId) {
    op.session == session && (op.RemoveAll? || (op.Remove? && op.strategy == strategy))
  }

  /** The first claim wins until its owner releases the strategy. */
  function CellStep(cell: Option<SessionId>, op: Op, strategy: StrategyId): Option<SessionId> {
    match cell
    case None => if Claims(op, strategy) then Some(op.session) else None
    case Some(session) => if Releases(op, session, strategy) then None else cell
  }

  function Cell(ops: seq<Op>, strategy: StrategyId): Option<SessionId> {
    if ops == [] then None else CellStep(Cell(ops[..|ops| - 1], strategy), ops[|ops| - 1], strategy)
  }

  /** The answer each caller must get, from the cell alone. */
  ghost predicate Granted(cell: Option<SessionId>, op: Op) {
    match op
    case Add(_, _) => cell.None?
    case Remove(session, _) => cell == Some(session)
    case RemoveAll(_) => true
  }

  /** One operation keeps the two maps inverse, moves every strategy as its own cell moves, and
      answers from that cell. */
  lemma ApplyRefinesCells(t: Table, op: Op)
    requires Inverse(t)
    ensures var (t1, answer) := Apply(t, op);
      && Inverse(t1)
      && (forall k :: OwnerIn(t1, k) == CellStep(OwnerIn(t, k), op, k))
      && (!op.RemoveAll? ==> (answer <==> Granted(OwnerIn(t, op.strategy), op)))
  {
    var (t1, answer) := Apply(t, op);
    forall k, s ensures k in Owned(t1, s) <==> k in t1.owner && t1.owner[k] == s {
      assert k in Owned(t, s) <==> k in t.owner && t.owner[k] == s;
      if op.RemoveAll? {
        assert k in Owned(t, op.session) <==> k in t.owner && t.owner[k] == op.session;
      }
    }
    forall k ensures OwnerIn(t1, k) == CellStep(OwnerIn(t, k), op, k) {
      if op.RemoveAll? {
        assert k in Owned(t, op.session) <==> k in t.owner && t.owner[k] == op.session;
      }
    }
  }

  /** Under any sequence of operations the two maps stay inverse and hold exactly the cells. */
  lemma {:induction false} ApplyAllRefinesCells(ops: seq<Op>)
    ensures Inverse(ApplyAll(NO_ROUTES, ops))
    ensures forall k :: OwnerIn(ApplyAll(NO_ROUTES, ops), k) == Cell(ops, k)
  {
    if ops != [] {
      ApplyAllRefinesCells(ops[..|ops| - 1]);
      ApplyRefinesCells(ApplyAll(NO_ROUTES, ops[..|ops| - 1]), ops[|ops| - 1]);
    }
  }

  /** Operation `i` took the free strategy for `session`, which has not released it since. */
  ghost predicate HeldSince(ops: seq<Op>, i: nat, session: SessionId, strategy: StrategyId) {
    && i < |ops|
    && Claims(ops[i], strategy) && ops[i].session == session
    && Cell(ops[..i], strategy).None?
    && forall j :: i < j < |ops| ==> !Releases(ops[j], session, strategy)
  }

  /** The owner in terms of the history: a session owns a strategy iff it made a claim while the
      strategy was free and has released neither it nor everything since. */
  lemma {:induction false} OwnerByHistory(ops: seq<Op>, session: SessionId, strategy: StrategyId)
    ensures OwnerIn(ApplyAll(NO_ROUTES, ops), strategy) == Some(session) <==>
            exists i :: HeldSince(ops, i, session, strategy)
  {
    ApplyAllRefinesCells(ops);
    CellByHistory(ops, session, strategy);
  }

  lemma {:induction false} CellByHistory(ops: seq<Op>, session: SessionId, strategy: StrategyId)
    ensures Cell(ops, strategy) == Some(session) <==> exists i :: HeldSince(ops, i, session, strategy)
  {
    if ops != [] {
      var n := |ops| - 1;
      var init := ops[..n];
      CellByHistory(init, session, strategy);
      forall i: nat | i < n ensures HeldSince(ops, i, session, strategy) <==>
                              HeldSince(init, i, session, strategy) && !Releases(ops[n], session, strategy)
      {
        assert init[..i] == ops[..i];
      }
      if Cell(ops, strategy) == Some(session) {
        if Cell(init, strategy) == Some(session) {
          var i :| HeldSince(init, i, session, strategy);
          assert HeldSince(ops, i, session, strategy);
        } else {
          assert HeldSince(ops, n, session, strategy);
        }
      }
    }
  }

  /** Removing all routes of a session deletes exactly its strategies and nothing else. */
  lemma RemoveAllIsExact(t: Table, session: SessionId)
    requires Inverse(t)
    ensures var t1 := RemoveAllRoutes(t, session);
      && session !in t1.owned
      && (forall k :: k in t1.owner ==> t1.owner[k] != session)
      && (forall k :: k in t.owner && t.owner[k] != session ==> k in t1.owner && t1.owner[k] == t.owner[k])
      && t1.owner.Keys <= t.owner.Keys
  {
    forall k ensures k in Owned(t, session) <==> k in t.owner && t.owner[k] == session {}
  }

  // ---------- empty reverse entries ----------

  /** The reverse index has an entry for the session, and no strategy in it. */
  predicate EmptyEntry(t: Table, session: SessionId) {
    session in t.owned && t.owned[session] == {}
  }

  ghost predicate NoEmptyEntry(t: Table) {
    forall s :: !EmptyEntry(t, s)
  }

  /** `op` takes the last strategy of its session away, one by one rather than all at once. */
  predicate RemovesLast(t: Table, op: Op) {
    op.Remove? && OwnerIn(t, op.strategy) == Some(op.session) && Owned(t, op.session) == {op.strategy}
  }

  /** Exactly when an operation leaves a session with an empty entry: it removes the session's last
      strategy, or the entry was empty and the operation neither fills nor erases it. */
  lemma EmptyEntryStep(t: Table, op: Op, session: SessionId)
    requires Inverse(t)
    ensures EmptyEntry(Apply(t, op).0, session) <==>
      || (op.session == session && RemovesLast(t, op))
      || (EmptyEntry(t, session) &&
          !(op.session == session && (op.RemoveAll? || (op.Add? && OwnerIn(t, op.strategy).None?))))
  {
    if op.Remove? && OwnerIn(t, op.strategy) == Some(op.session) {
      assert op.strategy in Owned(t, op.session);
    }
  }

  /** Starting without empty entries, only the removal of a last strategy makes one. */
  lemma NoEmptyEntryStep(t: Table, op: Op)
    requires Inverse(t) && NoEmptyEntry(t)
    ensures NoEmptyEntry(Apply(t, op).0) <==> !RemovesLast(t, op)
  {
    var next := Apply(t, op).0;
    forall s ensures EmptyEntry(next, s) <==> op.session == s && RemovesLast(t, op) {
      EmptyEntryStep(t, op, s);
    }
    assert EmptyEntry(next, op.session) <==> RemovesLast(t, op);
  }

  /** Operation `i` granted the session some strategy, and not all its routes were removed since. */
  ghost predicate GrantedSince(ops: seq<Op>, i: nat, session: SessionId) {
    && i < |ops|
    && ops[i].Add? && ops[i].session == session && Cell(ops[..i], ops[i].strategy).None?
    && forall j :: i < j < |ops| ==> ops[j] != RemoveAll(session)
  }

  lemma {:induction false} EntryByHistory(ops: seq<Op>, session: SessionId)
    ensures session in ApplyAll(NO_ROUTES, ops).owned <==> exists i :: GrantedSince(ops, i, session)
  {
    if ops != [] {
      var n := |ops| - 1;
      var init, op := ops[..n], ops[n];
      var t := ApplyAll(NO_ROUTES, init);
      EntryByHistory(init, session);
      ApplyAllRefinesCells(init);
      forall i: nat | i < n
        ensures GrantedSince(ops, i, session) <==> GrantedSince(init, i, session) && op != RemoveAll(session)
      {
        assert init[..i] == ops[..i];
      }
      var grants := op.Add? && op.session == session && OwnerIn(t, op.strategy).None?;
      assert grants <==> GrantedSince(ops, n, session) by {
        if op.Add? {
          assert OwnerIn(t, op.strategy) == Cell(init, op.strategy);
        }
      }
      assert session in Apply(t, op).0.owned <==> grants || (session in t.owned && op != RemoveAll(session)) by {
        if op.Remove? && OwnerIn(t, op.strategy) == Some(op.session) {
          assert op.strategy in Owned(t, op.session);
        }
      }
      if (exists i :: GrantedSince(init, i, session)) && op != RemoveAll(session) {
        var i :| GrantedSince(init, i, session);
        assert GrantedSince(ops, i, session);
      }
    }
  }

  /** The empty entries after any sequence of operations: those of the sessions that were granted a
      strategy, have not removed all their routes at once since, and hold no strategy now. */
  lemma {:induction false} EmptyEntriesByHistory(ops: seq<Op>, session: SessionId)
    ensures EmptyEntry(ApplyAll(NO_ROUTES, ops), session) <==>
      && (exists i :: GrantedSince(ops, i, session))
      && (forall k :: Cell(ops, k) != Some(session))
  {
    var t := ApplyAll(NO_ROUTES, ops);
    EntryByHistory(ops, session);
    ApplyAllRefinesCells(ops);
    forall k ensures k in Owned(t, session) <==> Cell(ops, k) == Some(session) {
      assert OwnerIn(t, k) == Cell(ops, k);
      assert k in Owned(t, session) <==> k in t.owner && t.owner[k] == session;
    }
    if exists k :: k in Owned(t, session) {
      var k :| k in Owned(t, session);
      assert Cell(ops, k) == Some(session);
    } else {
      assert Owned(t, session) == {};
    }
  }

  /** An input at which the expectation that empty entries are erased fails. */
  lemma EmptyReverseEntry()
    ensures var t := ApplyAll(NO_ROUTES, [Add(1, 7), Remove(1, 7)]);
      t.owner == map[] && t.owned == map[1 := {}]
  {
  }
}
