/** The same participant shard at the granularity of its locks.  `prepare` takes four locks in
    turn (validate, lock, log, insert), `commit` four (take, unlock, log, apply) and `abort`
    three (take, unlock, log), and releases each before the next (src/dtxn.rs), so sections of
    different calls interleave.  A crash ends every call that is running. */
module Sections {
  import opened Keys
  import opened Shard

  /** Who runs a call: the `commit` call of a transaction, or a `recover_participant` thread. */
  datatype Caller = Driver(txn: TxnId) | Recovery(id: nat)

  datatype Ending = Committing(ts: Ts) | Aborting

  /** A running call, by the last section it has finished. */
  datatype Call =
    | Validated(txn: TxnId, readTs: Ts, writes: seq<Write>)
    | Locked(txn: TxnId, readTs: Ts, writes: seq<Write>)
    | Logged(txn: TxnId, readTs: Ts, writes: seq<Write>)
    | Started(txn: TxnId, ending: Ending)
    | Taken(txn: TxnId, ending: Ending, taken: Option<seq<Write>>)
    | Released(txn: TxnId, ending: Ending, taken: Option<seq<Write>>)
    | Applying(txn: TxnId, ts: Ts, writes: seq<Write>)

  datatype Machine = Machine(st: State, calls: map<Caller, Call>)

  datatype Section =
    | Validate(c: Caller, txn: TxnId, readTs: Ts, writes: seq<Write>, readSet: seq<(Key, Ts)>)
    | Refuse(c: Caller)
    | Lock(c: Caller)
    | LogPrepare(c: Caller)
    | Insert(c: Caller)
    | Start(c: Caller, txn: TxnId, ending: Ending)
    | Miss(c: Caller)
    | Take(c: Caller)
    | Unlock(c: Caller)
    | LogEnd(c: Caller)
    | Apply(c: Caller)
    | Append
    | Crash

  // ---------------------------------------------------------------- sections

  predicate Enabled(m: Machine, e: Section) {
    match e
    case Validate(c, _, readTs, writes, readSet) =>
      c !in m.calls && OccValid(m.st.lastCommit, readTs, ReadKeys(readSet) + WriteKeys(writes))
    case Refuse(c) =>
      && c in m.calls && m.calls[c].Validated?
      && !NoForeignLock(m.st.pending.locks, m.calls[c].writes, m.calls[c].txn)
    case Lock(c) =>
      && c in m.calls && m.calls[c].Validated?
      && NoForeignLock(m.st.pending.locks, m.calls[c].writes, m.calls[c].txn)
    case LogPrepare(c) => c in m.calls && m.calls[c].Locked?
    case Insert(c) => c in m.calls && m.calls[c].Logged?
    case Start(c, _, _) => c !in m.calls
    case Miss(c) =>
      c in m.calls && m.calls[c].Started? && m.calls[c].ending.Committing? && m.calls[c].txn !in m.st.pending.prepared
    case Take(c) =>
      && c in m.calls && m.calls[c].Started?
      && (m.calls[c].ending.Committing? ==> m.calls[c].txn in m.st.pending.prepared)
    case Unlock(c) => c in m.calls && m.calls[c].Taken?
    case LogEnd(c) => c in m.calls && m.calls[c].Released? && (m.calls[c].ending.Committing? ==> m.calls[c].taken.Some?)
    case Apply(c) => c in m.calls && m.calls[c].Applying?
    case Append => true
    case Crash => true
  }

  function Entry(p: map<TxnId, seq<Write>>, t: TxnId): Option<seq<Write>> {
    if t in p then Some(p[t]) else None
  }

  function Record(call: Call): Command
    requires call.Released? && (call.ending.Committing? ==> call.taken.Some?)
  {
    match call.ending
    case Committing(ts) => TxnCommit(call.txn, ts, call.taken.value)
    case Aborting => TxnAbort(call.txn)
  }

  function After(m: Machine, e: Section): Machine
    requires Enabled(m, e)
  {
    var st, calls := m.st, m.calls;
    match e
    case Validate(c, txn, readTs, writes, _) => Machine(st, calls[c := Validated(txn, readTs, writes)])
    case Refuse(c) => Machine(st, calls - {c})
    case Lock(c) =>
      var Validated(txn, readTs, writes) := calls[c];
      Machine(st.(pending := st.pending.(locks := LockAll(st.pending.locks, writes, txn))),
              calls[c := Locked(txn, readTs, writes)])
    case LogPrepare(c) =>
      var Locked(txn, readTs, writes) := calls[c];
      Machine(st.(log := st.log + [TxnPrepare(txn, readTs, writes)]), calls[c := Logged(txn, readTs, writes)])
    case Insert(c) =>
      var Logged(txn, _, writes) := calls[c];
      Machine(st.(pending := st.pending.(prepared := st.pending.prepared[txn := writes])), calls - {c})
    case Start(c, txn, ending) => Machine(st, calls[c := Started(txn, ending)])
    case Miss(c) => Machine(st, calls - {c})
    case Take(c) =>
      var Started(txn, ending) := calls[c];
      Machine(st.(pending := st.pending.(prepared := st.pending.prepared - {txn})),
              calls[c := Taken(txn, ending, Entry(st.pending.prepared, txn))])
    case Unlock(c) =>
      var Taken(txn, ending, taken) := calls[c];
      Machine(if taken.Some? then st.(pending := st.pending.(locks := UnlockAll(st.pending.locks, taken.value)))
              else st,
              calls[c := Released(txn, ending, taken)])
    case LogEnd(c) =>
      var call := calls[c];
      Machine(st.(log := st.log + [Record(call)]),
              match call.ending
              case Committing(ts) => calls[c := Applying(call.txn, ts, call.taken.value)]
              case Aborting => calls - {c})
    case Apply(c) =>
      var Applying(_, ts, writes) := calls[c];
      Machine(st.(store := ApplyWrites(st.store, writes, ts), lastCommit := NoteCommits(st.lastCommit, writes, ts)),
              calls - {c})
    case Append => Machine(st.(log := st.log + [Other]), calls)
    case Crash => Machine(Replay(st), map[])
  }

  predicate Prepares(call: Call) {
    call.Validated? || call.Locked? || call.Logged?
  }

  predicate Ends(call: Call) {
    call.Started? || call.Taken? || call.Released?
  }

  /** What the callers keep to.  A transaction prepares a branch here once, with no other call
      of it running; it is only ever committed or only ever aborted, and it commits at a
      timestamp drawn after its snapshot. */
  ghost predicate Disciplined(m: Machine, e: Section) {
    match e
    case Validate(_, txn, _, _, _) =>
      txn !in m.st.pending.prepared && forall d :: d in m.calls ==> m.calls[d].txn != txn
    case Start(_, txn, ending) =>
      && (forall d :: d in m.calls && m.calls[d].txn == txn ==>
            !Prepares(m.calls[d]) && (Ends(m.calls[d]) ==> m.calls[d].ending.Committing? == ending.Committing?))
      && (ending.Committing? && txn in Held(m.st.log) ==> PrepareTs(m.st.log, txn) < ending.ts)
    case _ => true
  }

  ghost predicate Step(m: Machine, e: Section, m': Machine) {
    Enabled(m, e) && Disciplined(m, e) && m' == After(m, e)
  }

  ghost predicate StepAt(ms: seq<Machine>, es: seq<Section>, i: nat)
    requires i < |es| && |ms| == |es| + 1
  {
    Step(ms[i], es[i], ms[i + 1])
  }

  ghost predicate Path(ms: seq<Machine>, es: seq<Section>) {
    |ms| == |es| + 1 && forall i :: 0 <= i < |es| ==> StepAt(ms, es, i)
  }

  const START := Machine(EMPTY, map[])

  ghost predicate Run(ms: seq<Machine>, es: seq<Section>) {
    Path(ms, es) && ms[0] == START
  }

  // ---------------------------------------------------------------- the log and the prepared map

  /** What a replay of the log would hold prepared. */
  function Held(log: seq<Command>): map<TxnId, seq<Write>> {
    ReplayPending(log).prepared
  }

  lemma HeldAfter(log: seq<Command>, c: Command, t: TxnId)
    ensures Entry(Held(log + [c]), t) ==
            if c == Other || c.txn != t then Entry(Held(log), t)
            else if c.TxnPrepare? then Some(c.ops) else None
  {
    Snoc(log, c);
  }

  predicate Carries(call: Call, t: TxnId, ws: seq<Write>) {
    && call.txn == t
    && ((call.Logged? && call.writes == ws) || ((call.Taken? || call.Released?) && call.taken == Some(ws)))
  }

  predicate CallLinked(live: map<TxnId, seq<Write>>, log: seq<Command>, call: Call) {
    match call
    case Validated(t, _, _) => t !in live && Entry(Held(log), t) == None
    case Locked(t, _, _) => t !in live && Entry(Held(log), t) == None
    case Logged(t, _, ws) => t !in live && Entry(Held(log), t) == Some(ws)
    case Started(t, ending) => ending.Committing? && t in Held(log) ==> PrepareTs(log, t) < ending.ts
    case Taken(t, ending, ws) => t !in live && EndLinked(log, t, ending, ws)
    case Released(t, ending, ws) => t !in live && EndLinked(log, t, ending, ws)
    case Applying(_, _, _) => true
  }

  predicate EndLinked(log: seq<Command>, t: TxnId, ending: Ending, ws: Option<seq<Write>>) {
    ending.Committing? ==> ws.Some? && Entry(Held(log), t) == ws && PrepareTs(log, t) < ending.ts
  }

  /** Two running calls of one transaction. */
  predicate Compatible(a: Call, b: Call) {
    a.Applying? || b.Applying? ||
    (&& Ends(a) && Ends(b) && a.ending.Committing? == b.ending.Committing?
     && (a.Started? || b.Started? || a.taken == None || b.taken == None))
  }

  ghost predicate CallsApart(calls: map<Caller, Call>) {
    forall c, d :: c in calls && d in calls && c != d && calls[c].txn == calls[d].txn ==> Compatible(calls[c], calls[d])
  }

  ghost predicate Accounted(m: Machine, t: TxnId, ws: seq<Write>) {
    t in m.st.pending.prepared || exists c :: c in m.calls && Carries(m.calls[c], t, ws)
  }

  /** The live prepared map and the running calls agree with the log, in every run. */
  ghost predicate Linked(m: Machine) {
    && (forall t :: t in m.st.pending.prepared ==> Entry(Held(m.st.log), t) == Some(m.st.pending.prepared[t]))
    && (forall c :: c in m.calls ==> CallLinked(m.st.pending.prepared, m.st.log, m.calls[c]))
    && CallsApart(m.calls)
    && (forall t :: t in Held(m.st.log) ==> Accounted(m, t, Held(m.st.log)[t]))
  }

  lemma ValidateLinked(m: Machine, e: Section)
    requires Linked(m) && e.Validate? && Enabled(m, e) && Disciplined(m, e)
    ensures Linked(After(m, e))
  {
    var m' := After(m, e);
    forall t | t in Held(m.st.log) ensures t != e.txn && Accounted(m', t, Held(m.st.log)[t]) {
      CarriedOn(m, e.c, m', t);
    }
  }

  /** A call other than `c` goes on carrying what it carried. */
  lemma CarriedOn(m: Machine, c: Caller, m': Machine, t: TxnId)
    requires t in Held(m.st.log) && Accounted(m, t, Held(m.st.log)[t])
    requires t in m.st.pending.prepared ==> t in m'.st.pending.prepared
    requires forall d :: d in m.calls && d != c ==> d in m'.calls && m'.calls[d] == m.calls[d]
    requires c !in m.calls || !Carries(m.calls[c], t, Held(m.st.log)[t])
    ensures Accounted(m', t, Held(m.st.log)[t])
  {
    if t !in m.st.pending.prepared {
      var d :| d in m.calls && Carries(m.calls[d], t, Held(m.st.log)[t]);
      assert Carries(m'.calls[d], t, Held(m.st.log)[t]);
    }
  }

  lemma RefuseLinked(m: Machine, e: Section)
    requires Linked(m) && (e.Refuse? || e.Miss? || e.Apply?) && Enabled(m, e)
    ensures Linked(After(m, e))
  {
    var m' := After(m, e);
    forall t | t in Held(m.st.log) ensures Accounted(m', t, Held(m.st.log)[t]) { CarriedOn(m, e.c, m', t); }
  }

  lemma LockLinked(m: Machine, c: Caller)
    requires Linked(m) && Enabled(m, Lock(c))
    ensures Linked(After(m, Lock(c)))
  {
    var m' := After(m, Lock(c));
    assert CallLinked(m.st.pending.prepared, m.st.log, m.calls[c]);
    forall t | t in Held(m.st.log) ensures Accounted(m', t, Held(m.st.log)[t]) { CarriedOn(m, c, m', t); }
  }

  lemma StartLinked(m: Machine, e: Section)
    requires Linked(m) && e.Start? && Enabled(m, e) && Disciplined(m, e)
    ensures Linked(After(m, e))
  {
    var m' := After(m, e);
    forall t | t in Held(m.st.log) ensures Accounted(m', t, Held(m.st.log)[t]) { CarriedOn(m, e.c, m', t); }
  }

  lemma InsertLinked(m: Machine, c: Caller)
    requires Linked(m) && Enabled(m, Insert(c))
    ensures Linked(After(m, Insert(c)))
  {
    var m' := After(m, Insert(c));
    assert CallLinked(m.st.pending.prepared, m.st.log, m.calls[c]);
    forall d | d in m'.calls ensures CallLinked(m'.st.pending.prepared, m'.st.log, m'.calls[d]) {
      assert CallLinked(m.st.pending.prepared, m.st.log, m.calls[d]);
      if m.calls[d].txn == m.calls[c].txn { assert Compatible(m.calls[c], m.calls[d]); }
    }
    forall t | t in Held(m.st.log) ensures Accounted(m', t, Held(m.st.log)[t]) {
      if t != m.calls[c].txn { CarriedOn(m, c, m', t); }
    }
  }

  lemma TakeApart(m: Machine, c: Caller)
    requires Linked(m) && Enabled(m, Take(c))
    ensures CallsApart(After(m, Take(c)).calls)
  {
    var calls' := After(m, Take(c)).calls;
    forall d | d in m.calls && d != c && m.calls[d].txn == m.calls[c].txn ensures Compatible(calls'[c], calls'[d]) {
      assert Compatible(m.calls[c], m.calls[d]) && CallLinked(m.st.pending.prepared, m.st.log, m.calls[d]);
    }
    forall a, b | a in calls' && b in calls' && a != b && calls'[a].txn == calls'[b].txn
      ensures Compatible(calls'[a], calls'[b])
    {
      assert a == c || b == c || Compatible(m.calls[a], m.calls[b]);
    }
  }

  lemma TakeLinked(m: Machine, c: Caller)
    requires Linked(m) && Enabled(m, Take(c))
    ensures Linked(After(m, Take(c)))
  {
    var m', u := After(m, Take(c)), m.calls[c].txn;
    assert CallLinked(m.st.pending.prepared, m.st.log, m.calls[c]);
    TakeApart(m, c);
    forall d | d in m'.calls ensures CallLinked(m'.st.pending.prepared, m'.st.log, m'.calls[d]) {
      if d != c { assert CallLinked(m.st.pending.prepared, m.st.log, m.calls[d]); }
    }
    forall t | t in Held(m.st.log) ensures Accounted(m', t, Held(m.st.log)[t]) {
      if t == u && u in m.st.pending.prepared {
        assert Carries(m'.calls[c], t, Held(m.st.log)[t]);
      } else {
        CarriedOn(m, c, m', t);
      }
    }
  }

  lemma UnlockLinked(m: Machine, c: Caller)
    requires Linked(m) && Enabled(m, Unlock(c))
    ensures Linked(After(m, Unlock(c)))
  {
    var m' := After(m, Unlock(c));
    assert CallLinked(m.st.pending.prepared, m.st.log, m.calls[c]);
    forall t | t in Held(m.st.log) ensures Accounted(m', t, Held(m.st.log)[t]) {
      if Carries(m.calls[c], t, Held(m.st.log)[t]) {
        assert Carries(m'.calls[c], t, Held(m.st.log)[t]);
      } else {
        CarriedOn(m, c, m', t);
      }
    }
  }

  /** A record of `t` leaves what the log says of every other transaction. */
  lemma OtherRecord(log: seq<Command>, c: Command, live: map<TxnId, seq<Write>>, call: Call)
    requires CallLinked(live, log, call) && (c == Other || c.txn != call.txn)
    ensures CallLinked(live, log + [c], call)
  {
    HeldAfter(log, c, call.txn);
    AppendTs(log, c, call.txn);
  }

  lemma LogPrepareCalls(m: Machine, c: Caller, d: Caller)
    requires Linked(m) && Enabled(m, LogPrepare(c)) && d in m.calls && d != c
    ensures CallLinked(m.st.pending.prepared,
                       m.st.log + [TxnPrepare(m.calls[c].txn, m.calls[c].readTs, m.calls[c].writes)], m.calls[d])
    ensures m.calls[d].txn != m.calls[c].txn || m.calls[d].Applying?
  {
    assert CallLinked(m.st.pending.prepared, m.st.log, m.calls[d]);
    if m.calls[d].txn == m.calls[c].txn {
      assert Compatible(m.calls[c], m.calls[d]);
    } else {
      OtherRecord(m.st.log, TxnPrepare(m.calls[c].txn, m.calls[c].readTs, m.calls[c].writes),
                  m.st.pending.prepared, m.calls[d]);
    }
  }

  lemma LogPrepareLinked(m: Machine, c: Caller)
    requires Linked(m) && Enabled(m, LogPrepare(c))
    ensures Linked(After(m, LogPrepare(c)))
  {
    LogPrepareLive(m, c);
    LogPrepareApart(m, c);
    LogPrepareAccounted(m, c);
  }

  lemma LogPrepareLive(m: Machine, c: Caller)
    requires Linked(m) && Enabled(m, LogPrepare(c))
    ensures var m' := After(m, LogPrepare(c));
      && (forall t :: t in m'.st.pending.prepared ==> Entry(Held(m'.st.log), t) == Some(m'.st.pending.prepared[t]))
      && (forall d :: d in m'.calls ==> CallLinked(m'.st.pending.prepared, m'.st.log, m'.calls[d]))
  {
    var m', u := After(m, LogPrepare(c)), m.calls[c].txn;
    var r := TxnPrepare(u, m.calls[c].readTs, m.calls[c].writes);
    assert CallLinked(m.st.pending.prepared, m.st.log, m.calls[c]);
    HeldAfter(m.st.log, r, u);
    forall t | t in m'.st.pending.prepared ensures Entry(Held(m'.st.log), t) == Some(m'.st.pending.prepared[t]) {
      HeldAfter(m.st.log, r, t);
    }
    forall d | d in m'.calls ensures CallLinked(m'.st.pending.prepared, m'.st.log, m'.calls[d]) {
      if d != c { LogPrepareCalls(m, c, d); }
    }
  }

  lemma LogPrepareApart(m: Machine, c: Caller)
    requires CallsApart(m.calls) && Enabled(m, LogPrepare(c))
    ensures CallsApart(After(m, LogPrepare(c)).calls)
  {
    var calls' := After(m, LogPrepare(c)).calls;
    forall a, b | a in calls' && b in calls' && a != b && calls'[a].txn == calls'[b].txn
      ensures Compatible(calls'[a], calls'[b])
    {
      assert Compatible(m.calls[a], m.calls[b]);
    }
  }

  lemma LogPrepareAccounted(m: Machine, c: Caller)
    requires Enabled(m, LogPrepare(c)) && forall t :: t in Held(m.st.log) ==> Accounted(m, t, Held(m.st.log)[t])
    ensures var m' := After(m, LogPrepare(c)); forall t :: t in Held(m'.st.log) ==> Accounted(m', t, Held(m'.st.log)[t])
  {
    var m', u := After(m, LogPrepare(c)), m.calls[c].txn;
    forall t | t in Held(m'.st.log) ensures Accounted(m', t, Held(m'.st.log)[t]) {
      HeldAfter(m.st.log, TxnPrepare(u, m.calls[c].readTs, m.calls[c].writes), t);
      if t == u {
        assert Carries(m'.calls[c], t, Held(m'.st.log)[t]);
      } else {
        CarriedOn(m, c, m', t);
      }
    }
  }

  lemma LogEndCalls(m: Machine, c: Caller, d: Caller)
    requires Linked(m) && Enabled(m, LogEnd(c)) && d in m.calls && d != c
    ensures CallLinked(m.st.pending.prepared, m.st.log + [Record(m.calls[c])], m.calls[d])
  {
    var r := Record(m.calls[c]);
    if m.calls[d].txn == m.calls[c].txn {
      assert Compatible(m.calls[c], m.calls[d]);
      assert CallLinked(m.st.pending.prepared, m.st.log, m.calls[c]);
      HeldAfter(m.st.log, r, m.calls[d].txn);
    } else {
      OtherRecord(m.st.log, r, m.st.pending.prepared, m.calls[d]);
    }
  }

  lemma LogEndLinked(m: Machine, c: Caller)
    requires Linked(m) && Enabled(m, LogEnd(c))
    ensures Linked(After(m, LogEnd(c)))
  {
    var m', u, r := After(m, LogEnd(c)), m.calls[c].txn, Record(m.calls[c]);
    assert CallLinked(m.st.pending.prepared, m.st.log, m.calls[c]);
    HeldAfter(m.st.log, r, u);
    forall t | t in m'.st.pending.prepared ensures Entry(Held(m'.st.log), t) == Some(m'.st.pending.prepared[t]) {
      HeldAfter(m.st.log, r, t);
    }
    forall d | d in m'.calls ensures CallLinked(m'.st.pending.prepared, m'.st.log, m'.calls[d]) {
      if d != c { LogEndCalls(m, c, d); }
    }
    forall t | t in Held(m'.st.log) ensures Accounted(m', t, Held(m'.st.log)[t]) {
      HeldAfter(m.st.log, r, t);
      CarriedOn(m, c, m', t);
    }
  }

  lemma AppendLinked(m: Machine)
    requires Linked(m)
    ensures Linked(After(m, Append))
  {
    var m' := After(m, Append);
    forall t | t in m'.st.pending.prepared ensures Entry(Held(m'.st.log), t) == Some(m'.st.pending.prepared[t]) {
      HeldAfter(m.st.log, Other, t);
    }
    forall d | d in m'.calls ensures CallLinked(m'.st.pending.prepared, m'.st.log, m'.calls[d]) {
      OtherRecord(m.st.log, Other, m.st.pending.prepared, m.calls[d]);
    }
    forall t | t in Held(m'.st.log) ensures Accounted(m', t, Held(m'.st.log)[t]) {
      HeldAfter(m.st.log, Other, t);
    }
  }

  lemma StepKeepsLinked(m: Machine, e: Section, m': Machine)
    requires Linked(m) && Step(m, e, m')
    ensures Linked(m')
  {
    match e
    case Validate(_, _, _, _, _) => ValidateLinked(m, e);
    case Lock(c) => LockLinked(m, c);
    case Start(_, _, _) => StartLinked(m, e);
    case Insert(c) => InsertLinked(m, c);
    case LogPrepare(c) => LogPrepareLinked(m, c);
    case Take(c) => TakeLinked(m, c);
    case Unlock(c) => UnlockLinked(m, c);
    case LogEnd(c) => LogEndLinked(m, c);
    case Append => AppendLinked(m);
    case Crash =>
    case _ => RefuseLinked(m, e);
  }

  lemma {:induction false} RunKeepsLinked(ms: seq<Machine>, es: seq<Section>, n: nat)
    requires Run(ms, es) && n < |ms|
    ensures Linked(ms[n])
  {
    if n > 0 {
      RunKeepsLinked(ms, es, n - 1);
      assert StepAt(ms, es, n - 1);
      StepKeepsLinked(ms[n - 1], es[n - 1], ms[n]);
    }
  }

  // ---------------------------------------------------------------- the condition on overlapping calls

  predicate AppliesKey(call: Call, k: Key) {
    call.Applying? && k in WriteKeys(call.writes)
  }

  /** The condition under which a prepare may lock its keys: the log has no unresolved prepare
      and no unapplied commit of them, and what was validated still holds.  It can only fail
      if another call ran a section since this call validated, or is between two sections. */
  ghost predicate Clear(m: Machine, c: Caller)
    requires c in m.calls && m.calls[c].Validated?
  {
    forall k :: k in WriteKeys(m.calls[c].writes) ==>
      && k !in ReplayPending(m.st.log).locks
      && (k in m.st.lastCommit ==> m.st.lastCommit[k] <= m.calls[c].readTs)
      && !Unapplied(m.calls, k)
  }

  ghost predicate ClearStep(m: Machine, e: Section) {
    e.Lock? && e.c in m.calls && m.calls[e.c].Validated? ==> Clear(m, e.c)
  }

  /** Every lock is taken under the condition. */
  ghost predicate ClearRun(ms: seq<Machine>, es: seq<Section>) {
    Run(ms, es) && forall i :: 0 <= i < |es| ==> ClearStep(ms[i], es[i])
  }

  // ---------------------------------------------------------------- what clear runs keep

  /** The shard a replay of the log onto an empty store would give. */
  function OfLog(log: seq<Command>): State {
    State(ReplayStore(map[], log), ReplayPending(log), log, ReplayLast(map[], log))
  }

  /** The call holds the lock of `k`. */
  predicate HoldsKey(call: Call, k: Key) {
    || ((call.Locked? || call.Logged?) && k in WriteKeys(call.writes))
    || (call.Taken? && call.taken.Some? && k in WriteKeys(call.taken.value))
  }

  predicate LockedBy(locks: map<Key, TxnId>, k: Key, t: TxnId) {
    k in locks && locks[k] == t
  }

  ghost predicate Owned(m: Machine, t: TxnId, k: Key) {
    || (t in m.st.pending.prepared && k in WriteKeys(m.st.pending.prepared[t]))
    || (exists c :: c in m.calls && m.calls[c].txn == t && HoldsKey(m.calls[c], k))
  }

  ghost predicate LocksLive(m: Machine) {
    && (forall k :: k in m.st.pending.locks ==> Owned(m, m.st.pending.locks[k], k))
    && (forall t, k :: t in m.st.pending.prepared && k in WriteKeys(m.st.pending.prepared[t]) ==>
          LockedBy(m.st.pending.locks, k, t))
    && (forall c, k :: c in m.calls && HoldsKey(m.calls[c], k) ==>
          LockedBy(m.st.pending.locks, k, m.calls[c].txn))
  }

  predicate Unlocks(call: Call, log: seq<Command>, k: Key) {
    call.Released? && call.taken.Some? && call.txn in Held(log) && k in WriteKeys(call.taken.value)
  }

  /** A key that was unlocked ahead of its log record stays unlocked until the record is written. */
  ghost predicate ReleasedFree(m: Machine) {
    forall c, k :: c in m.calls && Unlocks(m.calls[c], m.st.log, k) ==> k !in m.st.pending.locks
  }

  predicate NotAfter(ts: Option<Ts>, readTs: Ts) {
    ts.Some? ==> ts.value <= readTs
  }

  ghost predicate LockedFresh(m: Machine) {
    forall c, k :: c in m.calls && m.calls[c].Locked? && k in WriteKeys(m.calls[c].writes) ==>
      NotAfter(LastCommitTs(m.st.log, k), m.calls[c].readTs)
  }

  /** The timestamp of the latest log commit of `k` below `ts`. */
  function CommitBelow(log: seq<Command>, k: Key, ts: Ts): Option<Ts> {
    if log == [] then None
    else if IsCommitOf(log[|log| - 1], k) && log[|log| - 1].commitTs < ts then Some(log[|log| - 1].commitTs)
    else CommitBelow(log[..|log| - 1], k, ts)
  }

  /** Applying `ws` at `ts` is all that `k` is behind the log. */
  ghost predicate OneBehind(st: State, k: Key, ts: Ts, ws: seq<Write>)
    requires k in WriteKeys(ws)
  {
    && LastCommitTs(st.log, k) == Some(ts) && LastIn(st.lastCommit, k) == CommitBelow(st.log, k, ts)
    && forall r: Ts :: LogLookup(st.log, k, r) ==
         if ts <= r then Some(Version(ts, LastWrite(ws, k))) else Lookup(Stored(st.store, k), r)
  }

  ghost predicate UpToDate(st: State, k: Key) {
    && LastIn(st.lastCommit, k) == LastCommitTs(st.log, k)
    && forall r: Ts :: Lookup(Stored(st.store, k), r) == LogLookup(st.log, k, r)
  }

  ghost predicate Unapplied(calls: map<Caller, Call>, k: Key) {
    exists c :: c in calls && AppliesKey(calls[c], k)
  }

  ghost predicate BehindAt(st: State, call: Call, k: Key)
    requires AppliesKey(call, k)
  {
    k !in st.pending.locks && k !in ReplayPending(st.log).locks && OneBehind(st, k, call.ts, call.writes)
  }

  ghost predicate ApplyingBehind(m: Machine) {
    forall c, k :: c in m.calls && AppliesKey(m.calls[c], k) ==> BehindAt(m.st, m.calls[c], k)
  }

  ghost predicate ApplyingOnce(calls: map<Caller, Call>) {
    forall c, d, k :: c in calls && d in calls && AppliesKey(calls[c], k) && AppliesKey(calls[d], k) ==> c == d
  }

  ghost predicate RestUpToDate(m: Machine) {
    forall k :: Unapplied(m.calls, k) || UpToDate(m.st, k)
  }

  ghost predicate Sound(m: Machine) {
    && Linked(m) && Shard.Inv(OfLog(m.st.log))
    && LocksLive(m) && ReleasedFree(m) && LockedFresh(m)
    && ApplyingBehind(m) && ApplyingOnce(m.calls) && RestUpToDate(m)
  }

  lemma LastAfter(log: seq<Command>, c: Command, k: Key)
    ensures LastCommitTs(log + [c], k) == if IsCommitOf(c, k) then Some(c.commitTs) else LastCommitTs(log, k)
  {
    Snoc(log, c);
  }

  lemma BelowAfter(log: seq<Command>, c: Command, k: Key, ts: Ts)
    ensures CommitBelow(log + [c], k, ts) ==
            if IsCommitOf(c, k) && c.commitTs < ts then Some(c.commitTs) else CommitBelow(log, k, ts)
  {
    Snoc(log, c);
  }

  /** Below a timestamp above them all, the latest commit is the latest. */
  lemma {:induction false} AllBelow(log: seq<Command>, k: Key, ts: Ts)
    requires forall i :: 0 <= i < |log| && IsCommitOf(log[i], k) ==> log[i].commitTs < ts
    ensures CommitBelow(log, k, ts) == LastCommitTs(log, k)
  {
    if log != [] { AllBelow(log[..|log| - 1], k, ts); }
  }

  lemma {:induction false} AtMostBelow(log: seq<Command>, k: Key, ts: Ts, i: nat)
    requires CommitsIncrease(log) && i < |log| && IsCommitOf(log[i], k) && log[i].commitTs < ts
    ensures CommitBelow(log, k, ts).Some? && log[i].commitTs <= CommitBelow(log, k, ts).value
  {
    var n := |log| - 1;
    if !(IsCommitOf(log[n], k) && log[n].commitTs < ts) { AtMostBelow(log[..n], k, ts, i); }
  }

  lemma LookAfter(log: seq<Command>, c: Command, k: Key, r: Ts)
    ensures LogLookup(log + [c], k, r) ==
            if IsCommitOf(c, k) && c.commitTs <= r then Some(Version(c.commitTs, LastWrite(c.ops, k)))
            else LogLookup(log, k, r)
  {
    Snoc(log, c);
  }

  /** Every call but `c` is where it was. */
  ghost predicate OnlyMoves(m: Machine, c: Caller, m': Machine) {
    && (forall d :: d in m.calls && d != c ==> d in m'.calls && m'.calls[d] == m.calls[d])
    && (forall d :: d in m'.calls && d != c ==> d in m.calls)
  }

  lemma StillOwned(m: Machine, c: Caller, m': Machine, t: TxnId, k: Key)
    requires Owned(m, t, k) && OnlyMoves(m, c, m')
    requires c in m.calls && m.calls[c].txn == t && HoldsKey(m.calls[c], k) ==>
      Owned(m', t, k)
    requires t in m.st.pending.prepared && k in WriteKeys(m.st.pending.prepared[t]) ==> Owned(m', t, k)
    ensures Owned(m', t, k)
  {
    if !(t in m.st.pending.prepared && k in WriteKeys(m.st.pending.prepared[t])) {
      var d :| d in m.calls && m.calls[d].txn == t && HoldsKey(m.calls[d], k);
      if d != c { assert d in m'.calls && m'.calls[d].txn == t && HoldsKey(m'.calls[d], k); }
    }
  }

  lemma QuietRest(m: Machine, c: Caller, m': Machine)
    requires RestUpToDate(m) && OnlyMoves(m, c, m')
    requires m'.st.log == m.st.log && m'.st.store == m.st.store && m'.st.lastCommit == m.st.lastCommit
    requires c in m.calls ==> !m.calls[c].Applying?
    ensures RestUpToDate(m')
  {
    forall k | !Unapplied(m'.calls, k) ensures UpToDate(m'.st, k) {
      assert !Unapplied(m.calls, k) by {
        forall d | d in m.calls ensures !AppliesKey(m.calls[d], k) { assert d != c ==> m'.calls[d] == m.calls[d]; }
      }
      assert UpToDate(m.st, k);
    }
  }

  lemma QuietBehind(m: Machine, c: Caller, m': Machine)
    requires ApplyingBehind(m) && OnlyMoves(m, c, m')
    requires m'.st.log == m.st.log && m'.st.store == m.st.store && m'.st.lastCommit == m.st.lastCommit
    requires c in m'.calls ==> !m'.calls[c].Applying?
    requires forall k :: k in m'.st.pending.locks && Unapplied(m'.calls, k) ==> k in m.st.pending.locks
    ensures ApplyingBehind(m')
  {
    forall d, k | d in m'.calls && AppliesKey(m'.calls[d], k)
      ensures BehindAt(m'.st, m'.calls[d], k)
    {
      assert m.calls[d] == m'.calls[d] && Unapplied(m'.calls, k);
      assert BehindAt(m.st, m.calls[d], k);
    }
  }

  lemma QuietLocks(m: Machine, c: Caller, m': Machine)
    requires LocksLive(m) && OnlyMoves(m, c, m') && m'.st.pending == m.st.pending
    requires c in m.calls ==> forall k :: !HoldsKey(m.calls[c], k)
    requires c in m'.calls ==> forall k :: !HoldsKey(m'.calls[c], k)
    ensures LocksLive(m')
  {
    forall k | k in m'.st.pending.locks ensures Owned(m', m'.st.pending.locks[k], k) {
      StillOwned(m, c, m', m'.st.pending.locks[k], k);
    }
  }

  /** Moving one call that is neither locked, released nor applying. */
  lemma QuietCalls(m: Machine, c: Caller, m': Machine)
    requires ReleasedFree(m) && LockedFresh(m) && ApplyingOnce(m.calls) && OnlyMoves(m, c, m')
    requires m'.st.log == m.st.log && m'.st.pending.locks == m.st.pending.locks
    requires c in m'.calls ==> !m'.calls[c].Locked? && !m'.calls[c].Released? && !m'.calls[c].Applying?
    ensures ReleasedFree(m') && LockedFresh(m') && ApplyingOnce(m'.calls)
  {
  }

  /** Sections that touch neither the shard's maps nor a call that holds, released or applies. */
  lemma QuietSound(m: Machine, c: Caller, m': Machine)
    requires Sound(m) && Linked(m') && m'.st == m.st && OnlyMoves(m, c, m')
    requires c in m.calls ==> m.calls[c].Validated? || m.calls[c].Started?
    requires c in m'.calls ==> m'.calls[c].Validated? || m'.calls[c].Started?
    ensures Sound(m')
  {
    QuietLive(m, c, m');
  }

  lemma QuietLive(m: Machine, c: Caller, m': Machine)
    requires LocksLive(m) && ReleasedFree(m) && LockedFresh(m)
    requires ApplyingBehind(m) && ApplyingOnce(m.calls) && RestUpToDate(m)
    requires m'.st == m.st && OnlyMoves(m, c, m')
    requires c in m.calls ==> m.calls[c].Validated? || m.calls[c].Started?
    requires c in m'.calls ==> m'.calls[c].Validated? || m'.calls[c].Started?
    ensures LocksLive(m') && ReleasedFree(m') && LockedFresh(m')
    ensures ApplyingBehind(m') && ApplyingOnce(m'.calls) && RestUpToDate(m')
  {
    QuietRest(m, c, m');
    QuietBehind(m, c, m');
    QuietLocks(m, c, m');
    QuietCalls(m, c, m');
  }

  // ---------------------------------------------------------------- prepare

  /** No other call or entry owns a key the lock check let through. */
  lemma NobodyOwns(m: Machine, c: Caller, k: Key)
    requires Linked(m) && LocksLive(m) && Enabled(m, Lock(c)) && k in WriteKeys(m.calls[c].writes)
    ensures k !in m.st.pending.locks
  {
    var u := m.calls[c].txn;
    assert CallLinked(m.st.pending.prepared, m.st.log, m.calls[c]);
    assert !Owned(m, u, k) by {
      forall d | d in m.calls && m.calls[d].txn == u ensures !HoldsKey(m.calls[d], k) {
        assert d == c || Compatible(m.calls[c], m.calls[d]);
      }
    }
  }

  lemma LockLocks(m: Machine, c: Caller)
    requires Linked(m) && LocksLive(m) && Enabled(m, Lock(c))
    ensures LocksLive(After(m, Lock(c)))
  {
    var m', ws := After(m, Lock(c)), m.calls[c].writes;
    forall k | k in WriteKeys(ws) ensures k !in m.st.pending.locks { NobodyOwns(m, c, k); }
    forall k | k in m'.st.pending.locks ensures Owned(m', m'.st.pending.locks[k], k) {
      if k in WriteKeys(ws) {
        assert HoldsKey(m'.calls[c], k);
      } else {
        StillOwned(m, c, m', m'.st.pending.locks[k], k);
      }
    }
  }

  lemma LockFresh(m: Machine, c: Caller)
    requires LockedFresh(m) && RestUpToDate(m) && Enabled(m, Lock(c)) && Clear(m, c)
    ensures LockedFresh(After(m, Lock(c)))
  {
    forall k | k in WriteKeys(m.calls[c].writes) ensures NotAfter(LastCommitTs(m.st.log, k), m.calls[c].readTs) {
      assert UpToDate(m.st, k);
    }
  }

  /** An unlocked key whose record is not written is still locked in the log. */
  lemma UnlocksHeld(m: Machine, d: Caller, k: Key)
    requires Linked(m) && LocksExact(ReplayPending(m.st.log)) && d in m.calls && Unlocks(m.calls[d], m.st.log, k)
    ensures LockedBy(ReplayPending(m.st.log).locks, k, m.calls[d].txn)
  {
    var call := m.calls[d];
    assert CallLinked(m.st.pending.prepared, m.st.log, call);
    assert Accounted(m, call.txn, Held(m.st.log)[call.txn]);
    var a :| a in m.calls && Carries(m.calls[a], call.txn, Held(m.st.log)[call.txn]);
    assert a != d ==> Compatible(m.calls[a], m.calls[d]);
    assert k in WriteKeys(ReplayPending(m.st.log).prepared[call.txn]);
  }

  lemma LockReleased(m: Machine, c: Caller)
    requires Linked(m) && LocksExact(ReplayPending(m.st.log)) && ReleasedFree(m) && Enabled(m, Lock(c)) && Clear(m, c)
    ensures ReleasedFree(After(m, Lock(c)))
  {
    var m' := After(m, Lock(c));
    forall d, k | d in m'.calls && Unlocks(m'.calls[d], m'.st.log, k) ensures k !in m'.st.pending.locks {
      UnlocksHeld(m, d, k);
    }
  }

  lemma LockSound(m: Machine, c: Caller)
    requires Sound(m) && Enabled(m, Lock(c)) && Clear(m, c)
    ensures Sound(After(m, Lock(c)))
  {
    LockLinked(m, c);
    LockLocks(m, c);
    LockFresh(m, c);
    LockReleased(m, c);
    QuietRest(m, c, After(m, Lock(c)));
    LockBehind(m, c);
  }

  lemma LockBehind(m: Machine, c: Caller)
    requires ApplyingBehind(m) && Enabled(m, Lock(c)) && Clear(m, c)
    ensures ApplyingBehind(After(m, Lock(c)))
  {
    var m' := After(m, Lock(c));
    forall d, k | d in m'.calls && AppliesKey(m'.calls[d], k) ensures BehindAt(m'.st, m'.calls[d], k) {
      assert m.calls[d] == m'.calls[d] && BehindAt(m.st, m.calls[d], k);
      assert Unapplied(m.calls, k);
    }
  }

  lemma OfLogPrepare(log: seq<Command>, t: TxnId, readTs: Ts, ws: seq<Write>)
    ensures OfLog(log + [TxnPrepare(t, readTs, ws)]) == Shard.Prepare(OfLog(log), t, readTs, ws)
  {
    Snoc(log, TxnPrepare(t, readTs, ws));
  }

  lemma LastOfLog(log: seq<Command>, k: Key)
    ensures LastIn(ReplayLast(map[], log), k) == LastCommitTs(log, k)
  {
    ReplayLastIn(map[], log, k);
  }

  /** Whoever the log holds a key for also holds it live, unless it was released ahead of its record. */
  lemma HeldIsLive(m: Machine, t: TxnId, k: Key)
    requires Linked(m) && LocksLive(m) && t in Held(m.st.log) && k in WriteKeys(Held(m.st.log)[t])
    ensures LockedBy(m.st.pending.locks, k, t) ||
            exists d :: d in m.calls && m.calls[d].txn == t && Unlocks(m.calls[d], m.st.log, k)
  {
    assert Accounted(m, t, Held(m.st.log)[t]);
    if t in m.st.pending.prepared {
      assert Entry(Held(m.st.log), t) == Some(m.st.pending.prepared[t]);
    } else {
      var d :| d in m.calls && Carries(m.calls[d], t, Held(m.st.log)[t]);
      assert m.calls[d].Released? || HoldsKey(m.calls[d], k);
      assert m.calls[d].Released? ==> Unlocks(m.calls[d], m.st.log, k);
    }
  }

  lemma LoggedAdmits(m: Machine, c: Caller)
    requires Sound(m) && Enabled(m, LogPrepare(c))
    ensures Admits(OfLog(m.st.log), m.calls[c].txn, m.calls[c].readTs, m.calls[c].writes, [])
    ensures m.calls[c].txn !in Held(m.st.log)
  {
    var ws, pl := m.calls[c].writes, ReplayPending(m.st.log);
    assert CallLinked(m.st.pending.prepared, m.st.log, m.calls[c]);
    forall k | k in WriteKeys(ws) && k in ReplayLast(map[], m.st.log)
      ensures ReplayLast(map[], m.st.log)[k] <= m.calls[c].readTs
    {
      LastOfLog(m.st.log, k);
      assert NotAfter(LastCommitTs(m.st.log, k), m.calls[c].readTs);
    }
    forall k | k in WriteKeys(ws) ensures k in pl.locks ==> pl.locks[k] == m.calls[c].txn {
      assert HoldsKey(m.calls[c], k);
      if k in pl.locks { HeldIsLive(m, pl.locks[k], k); }
    }
  }

  /** A record that is not a commit leaves the lookups of the log. */
  lemma RecordRest(m: Machine, c: Caller, r: Command, m': Machine)
    requires RestUpToDate(m) && OnlyMoves(m, c, m') && !r.TxnCommit?
    requires m'.st.log == m.st.log + [r] && m'.st.store == m.st.store && m'.st.lastCommit == m.st.lastCommit
    requires c in m.calls ==> !m.calls[c].Applying?
    ensures RestUpToDate(m')
  {
    forall k | !Unapplied(m'.calls, k) ensures UpToDate(m'.st, k) {
      assert !Unapplied(m.calls, k) by {
        forall d | d in m.calls ensures !AppliesKey(m.calls[d], k) { assert d != c ==> m'.calls[d] == m.calls[d]; }
      }
      assert UpToDate(m.st, k);
      LastAfter(m.st.log, r, k);
      forall q: Ts ensures Lookup(Stored(m'.st.store, k), q) == LogLookup(m'.st.log, k, q) {
        LookAfter(m.st.log, r, k, q);
      }
    }
  }

  lemma RecordOneBehind(st: State, r: Command, k: Key, ts: Ts, ws: seq<Write>, st': State)
    requires k in WriteKeys(ws) && OneBehind(st, k, ts, ws) && !IsCommitOf(r, k)
    requires st'.log == st.log + [r] && st'.store == st.store && st'.lastCommit == st.lastCommit
    ensures OneBehind(st', k, ts, ws)
  {
    BelowAfter(st.log, r, k, ts);
    LastAfter(st.log, r, k);
    forall q: Ts
      ensures LogLookup(st'.log, k, q) ==
              if ts <= q then Some(Version(ts, LastWrite(ws, k))) else Lookup(Stored(st'.store, k), q)
    {
      LookAfter(st.log, r, k, q);
    }
  }

  /** A record that does not touch the key being applied. */
  lemma RecordBehind(st: State, r: Command, st': State, call: Call, k: Key)
    requires AppliesKey(call, k) && BehindAt(st, call, k)
    requires st'.log == st.log + [r] && st'.store == st.store && st'.pending.locks == st.pending.locks
    requires st'.lastCommit == st.lastCommit
    requires !IsCommitOf(r, k) && k !in ReplayPending(st'.log).locks
    ensures BehindAt(st', call, k)
  {
    RecordOneBehind(st, r, k, call.ts, call.writes, st');
  }

  lemma RecordFresh(m: Machine, c: Caller, r: Command, m': Machine)
    requires LockedFresh(m) && OnlyMoves(m, c, m') && m'.st.log == m.st.log + [r]
    requires c in m'.calls ==> !m'.calls[c].Locked?
    requires forall d, k :: d in m.calls && m.calls[d].Locked? && k in WriteKeys(m.calls[d].writes) ==>
      !IsCommitOf(r, k)
    ensures LockedFresh(m')
  {
    forall d, k | d in m'.calls && m'.calls[d].Locked? && k in WriteKeys(m'.calls[d].writes)
      ensures NotAfter(LastCommitTs(m'.st.log, k), m'.calls[d].readTs)
    {
      assert d in m.calls && m.calls[d] == m'.calls[d];
      assert NotAfter(LastCommitTs(m.st.log, k), m.calls[d].readTs);
      LastAfter(m.st.log, r, k);
    }
  }

  lemma LogPrepareBehind(m: Machine, c: Caller)
    requires ApplyingBehind(m) && LocksLive(m) && Enabled(m, LogPrepare(c))
    ensures ApplyingBehind(After(m, LogPrepare(c)))
  {
    var m', call := After(m, LogPrepare(c)), m.calls[c];
    var r := TxnPrepare(call.txn, call.readTs, call.writes);
    Snoc(m.st.log, r);
    forall d, k | d in m'.calls && AppliesKey(m'.calls[d], k) ensures BehindAt(m'.st, m'.calls[d], k) {
      assert m.calls[d] == m'.calls[d] && BehindAt(m.st, m.calls[d], k);
      assert k in WriteKeys(call.writes) ==> HoldsKey(call, k);
      RecordBehind(m.st, r, m'.st, m.calls[d], k);
    }
  }

  lemma LogPrepareReleased(m: Machine, c: Caller)
    requires Linked(m) && ReleasedFree(m) && Enabled(m, LogPrepare(c))
    ensures ReleasedFree(After(m, LogPrepare(c)))
  {
    var m', call := After(m, LogPrepare(c)), m.calls[c];
    forall d, k | d in m'.calls && Unlocks(m'.calls[d], m'.st.log, k) ensures k !in m'.st.pending.locks {
      LogPrepareCalls(m, c, d);
      HeldAfter(m.st.log, TxnPrepare(call.txn, call.readTs, call.writes), m.calls[d].txn);
      assert Unlocks(m.calls[d], m.st.log, k);
    }
  }

  lemma LogPrepareLocks(m: Machine, c: Caller)
    requires LocksLive(m) && Enabled(m, LogPrepare(c))
    ensures LocksLive(After(m, LogPrepare(c)))
  {
    var m' := After(m, LogPrepare(c));
    forall k | k in m'.st.pending.locks ensures Owned(m', m'.st.pending.locks[k], k) {
      assert HoldsKey(m.calls[c], k) ==> HoldsKey(m'.calls[c], k);
      StillOwned(m, c, m', m'.st.pending.locks[k], k);
    }
    forall d, k | d in m'.calls && HoldsKey(m'.calls[d], k) ensures LockedBy(m'.st.pending.locks, k, m'.calls[d].txn) {
      assert HoldsKey(m.calls[d], k);
    }
  }

  lemma LogPrepareInv(m: Machine, c: Caller)
    requires Sound(m) && Enabled(m, LogPrepare(c))
    ensures Shard.Inv(OfLog(After(m, LogPrepare(c)).st.log))
  {
    var call := m.calls[c];
    LoggedAdmits(m, c);
    PrepareKeepsInv(OfLog(m.st.log), call.txn, call.readTs, call.writes, []);
    OfLogPrepare(m.st.log, call.txn, call.readTs, call.writes);
  }

  lemma LogPrepareSound(m: Machine, c: Caller)
    requires Sound(m) && Enabled(m, LogPrepare(c))
    ensures Sound(After(m, LogPrepare(c)))
  {
    LogPrepareLinked(m, c);
    LogPrepareInv(m, c);
    LogPrepareLocks(m, c);
    LogPrepareReleased(m, c);
    LogPrepareBehind(m, c);
    LogPrepareRest(m, c);
  }

  lemma LogPrepareRest(m: Machine, c: Caller)
    requires RestUpToDate(m) && LockedFresh(m) && ApplyingOnce(m.calls) && Enabled(m, LogPrepare(c))
    ensures RestUpToDate(After(m, LogPrepare(c))) && LockedFresh(After(m, LogPrepare(c)))
    ensures ApplyingOnce(After(m, LogPrepare(c)).calls)
  {
    var m', call := After(m, LogPrepare(c)), m.calls[c];
    var r := TxnPrepare(call.txn, call.readTs, call.writes);
    RecordRest(m, c, r, m');
    RecordFresh(m, c, r, m');
  }

  lemma InsertLocks(m: Machine, c: Caller)
    requires LocksLive(m) && Enabled(m, Insert(c)) && m.calls[c].txn !in m.st.pending.prepared
    ensures LocksLive(After(m, Insert(c)))
  {
    var m' := After(m, Insert(c));
    forall k | k in m'.st.pending.locks ensures Owned(m', m'.st.pending.locks[k], k) {
      StillOwned(m, c, m', m'.st.pending.locks[k], k);
    }
    forall k | k in WriteKeys(m.calls[c].writes) ensures LockedBy(m.st.pending.locks, k, m.calls[c].txn) {
      assert HoldsKey(m.calls[c], k);
    }
  }

  lemma InsertSound(m: Machine, c: Caller)
    requires Sound(m) && Enabled(m, Insert(c))
    ensures Sound(After(m, Insert(c)))
  {
    var m' := After(m, Insert(c));
    assert CallLinked(m.st.pending.prepared, m.st.log, m.calls[c]);
    InsertLinked(m, c);
    InsertLocks(m, c);
    QuietRest(m, c, m');
    QuietBehind(m, c, m');
    QuietCalls(m, c, m');
  }

  // ---------------------------------------------------------------- commit and abort

  lemma TakeLocks(m: Machine, c: Caller)
    requires Linked(m) && LocksLive(m) && Enabled(m, Take(c))
    ensures LocksLive(After(m, Take(c)))
  {
    var m' := After(m, Take(c));
    forall k | k in m'.st.pending.locks ensures Owned(m', m'.st.pending.locks[k], k) {
      var t := m'.st.pending.locks[k];
      if t == m.calls[c].txn && t in m.st.pending.prepared && k in WriteKeys(m.st.pending.prepared[t]) {
        assert HoldsKey(m'.calls[c], k);
      }
      StillOwned(m, c, m', t, k);
    }
    forall d, k | d in m'.calls && HoldsKey(m'.calls[d], k) ensures LockedBy(m'.st.pending.locks, k, m'.calls[d].txn) {
      if d != c { assert HoldsKey(m.calls[d], k); }
    }
  }

  lemma TakeSound(m: Machine, c: Caller)
    requires Sound(m) && Enabled(m, Take(c))
    ensures Sound(After(m, Take(c)))
  {
    var m' := After(m, Take(c));
    TakeLinked(m, c);
    TakeLocks(m, c);
    QuietRest(m, c, m');
    QuietBehind(m, c, m');
    QuietCalls(m, c, m');
  }

  /** Only the call itself owns the keys it unlocks. */
  lemma UnlockLocks(m: Machine, c: Caller)
    requires Linked(m) && LocksLive(m) && Enabled(m, Unlock(c))
    ensures LocksLive(After(m, Unlock(c)))
  {
    var m', call := After(m, Unlock(c)), m.calls[c];
    assert CallLinked(m.st.pending.prepared, m.st.log, call);
    forall k | k in m'.st.pending.locks ensures Owned(m', m'.st.pending.locks[k], k) {
      assert !HoldsKey(call, k);
      StillOwned(m, c, m', m'.st.pending.locks[k], k);
    }
    forall d, k | d in m'.calls && HoldsKey(m'.calls[d], k) ensures LockedBy(m'.st.pending.locks, k, m'.calls[d].txn) {
      assert HoldsKey(m.calls[d], k) && LockedBy(m.st.pending.locks, k, m.calls[d].txn);
      if m.calls[d].txn == call.txn { assert Compatible(m.calls[d], call); }
      assert HoldsKey(call, k) ==> LockedBy(m.st.pending.locks, k, call.txn);
    }
    forall t, k | t in m'.st.pending.prepared && k in WriteKeys(m'.st.pending.prepared[t])
      ensures LockedBy(m'.st.pending.locks, k, t)
    {
      assert LockedBy(m.st.pending.locks, k, t);
      assert HoldsKey(call, k) ==> LockedBy(m.st.pending.locks, k, call.txn);
    }
  }

  lemma UnlockReleased(m: Machine, c: Caller)
    requires ReleasedFree(m) && LockedFresh(m) && ApplyingOnce(m.calls) && Enabled(m, Unlock(c))
    ensures ReleasedFree(After(m, Unlock(c))) && LockedFresh(After(m, Unlock(c)))
    ensures ApplyingOnce(After(m, Unlock(c)).calls)
  {
    var m' := After(m, Unlock(c));
    forall d, k | d in m'.calls && Unlocks(m'.calls[d], m'.st.log, k) ensures k !in m'.st.pending.locks {
      if d != c { assert Unlocks(m.calls[d], m.st.log, k); }
    }
  }

  lemma UnlockSound(m: Machine, c: Caller)
    requires Sound(m) && Enabled(m, Unlock(c))
    ensures Sound(After(m, Unlock(c)))
  {
    var m' := After(m, Unlock(c));
    UnlockLinked(m, c);
    UnlockLocks(m, c);
    UnlockReleased(m, c);
    QuietRest(m, c, m');
    QuietBehind(m, c, m');
  }

  lemma EndLocks(m: Machine, c: Caller)
    requires LocksLive(m) && Enabled(m, LogEnd(c))
    ensures LocksLive(After(m, LogEnd(c)))
  {
    QuietLocks(m, c, After(m, LogEnd(c)));
  }

  lemma EndReleased(m: Machine, c: Caller)
    requires ReleasedFree(m) && Enabled(m, LogEnd(c))
    ensures ReleasedFree(After(m, LogEnd(c)))
  {
    var m' := After(m, LogEnd(c));
    forall d, k | d in m'.calls && Unlocks(m'.calls[d], m'.st.log, k) ensures k !in m'.st.pending.locks {
      HeldAfter(m.st.log, Record(m.calls[c]), m.calls[d].txn);
      assert Unlocks(m.calls[d], m.st.log, k);
    }
  }

  lemma OfLogAbort(log: seq<Command>, t: TxnId)
    ensures OfLog(log + [TxnAbort(t)]) == Shard.Abort(OfLog(log), t)
  {
    Snoc(log, TxnAbort(t));
  }

  lemma EndShrinksLocks(log: seq<Command>, r: Command)
    requires r.TxnAbort? || r.TxnCommit?
    ensures forall k :: k in ReplayPending(log + [r]).locks ==> k in ReplayPending(log).locks
  {
    Snoc(log, r);
  }

  lemma LogAbortBehind(m: Machine, c: Caller)
    requires ApplyingBehind(m) && Enabled(m, LogEnd(c)) && m.calls[c].ending == Aborting
    ensures ApplyingBehind(After(m, LogEnd(c)))
  {
    var m', r := After(m, LogEnd(c)), TxnAbort(m.calls[c].txn);
    EndShrinksLocks(m.st.log, r);
    forall d, k | d in m'.calls && AppliesKey(m'.calls[d], k) ensures BehindAt(m'.st, m'.calls[d], k) {
      assert m.calls[d] == m'.calls[d] && BehindAt(m.st, m.calls[d], k);
      RecordBehind(m.st, r, m'.st, m.calls[d], k);
    }
  }

  lemma LogAbortSound(m: Machine, c: Caller)
    requires Sound(m) && Enabled(m, LogEnd(c)) && m.calls[c].ending == Aborting
    ensures Sound(After(m, LogEnd(c)))
  {
    var m', r := After(m, LogEnd(c)), TxnAbort(m.calls[c].txn);
    LogEndLinked(m, c);
    AbortKeepsInv(OfLog(m.st.log), m.calls[c].txn);
    OfLogAbort(m.st.log, m.calls[c].txn);
    EndLocks(m, c);
    EndReleased(m, c);
    LogAbortBehind(m, c);
    RecordRest(m, c, r, m');
    RecordFresh(m, c, r, m');
  }

  lemma OfLogCommit(log: seq<Command>, t: TxnId, ts: Ts)
    requires t in Held(log)
    ensures OfLog(log + [TxnCommit(t, ts, Held(log)[t])]) == Shard.Commit(OfLog(log), t, ts)
  {
    Snoc(log, TxnCommit(t, ts, Held(log)[t]));
  }

  /** The keys of a commit about to be logged: locked in the log, free of live locks, up to date. */
  lemma CommitKeys(m: Machine, c: Caller, k: Key)
    requires Sound(m) && Enabled(m, LogEnd(c)) && m.calls[c].ending.Committing?
    requires k in WriteKeys(m.calls[c].taken.value)
    ensures k in ReplayPending(m.st.log).locks && k !in m.st.pending.locks
    ensures !Unapplied(m.calls, k) && UpToDate(m.st, k)
    ensures k !in ReplayPending(m.st.log + [Record(m.calls[c])]).locks
  {
    assert CallLinked(m.st.pending.prepared, m.st.log, m.calls[c]);
    assert Unlocks(m.calls[c], m.st.log, k);
    UnlocksHeld(m, c, k);
    Snoc(m.st.log, Record(m.calls[c]));
  }

  lemma CommitBelowLast(log: seq<Command>, c: Command, k: Key)
    requires IsCommitOf(c, k) && CommitsIncrease(log + [c])
    ensures CommitBelow(log + [c], k, c.commitTs) == LastCommitTs(log, k)
  {
    var all := log + [c];
    forall i | 0 <= i < |log| && IsCommitOf(log[i], k) ensures log[i].commitTs < c.commitTs {
      assert all[i] == log[i] && all[|log|] == c;
    }
    AllBelow(log, k, c.commitTs);
    BelowAfter(log, c, k, c.commitTs);
  }

  lemma CommitOneBehind(st: State, k: Key, t: TxnId, ts: Ts, ws: seq<Write>, st': State)
    requires k in WriteKeys(ws) && UpToDate(st, k)
    requires st'.log == st.log + [TxnCommit(t, ts, ws)] && st'.store == st.store
    requires st'.lastCommit == st.lastCommit && CommitsIncrease(st'.log)
    ensures OneBehind(st', k, ts, ws)
  {
    CommitBelowLast(st.log, TxnCommit(t, ts, ws), k);
    var r := TxnCommit(t, ts, ws);
    LastAfter(st.log, r, k);
    forall q: Ts
      ensures LogLookup(st'.log, k, q) ==
              if ts <= q then Some(Version(ts, LastWrite(ws, k))) else Lookup(Stored(st'.store, k), q)
    {
      LookAfter(st.log, r, k, q);
    }
  }

  /** No key of a commit about to be logged is still being applied by another call. */
  lemma CommitKeysApart(m: Machine, c: Caller, d: Caller, k: Key)
    requires Sound(m) && Enabled(m, LogEnd(c)) && m.calls[c].ending.Committing?
    requires d in m.calls && AppliesKey(m.calls[d], k)
    ensures k !in WriteKeys(m.calls[c].taken.value)
  {
    assert Unapplied(m.calls, k);
    if k in WriteKeys(m.calls[c].taken.value) { CommitKeys(m, c, k); }
  }

  lemma CommitIncreases(m: Machine, c: Caller)
    requires Sound(m) && Enabled(m, LogEnd(c)) && m.calls[c].ending.Committing?
    ensures CommitsIncrease(m.st.log + [Record(m.calls[c])])
  {
    var call := m.calls[c];
    assert CallLinked(m.st.pending.prepared, m.st.log, call);
    CommitKeepsInv(OfLog(m.st.log), call.txn, call.ending.ts);
    OfLogCommit(m.st.log, call.txn, call.ending.ts);
  }

  lemma LogCommitBehindAt(m: Machine, c: Caller, d: Caller, k: Key)
    requires Sound(m) && Enabled(m, LogEnd(c)) && m.calls[c].ending.Committing?
    requires var m' := After(m, LogEnd(c)); d in m'.calls && AppliesKey(m'.calls[d], k)
    ensures var m' := After(m, LogEnd(c)); BehindAt(m'.st, m'.calls[d], k)
  {
    var m', r := After(m, LogEnd(c)), Record(m.calls[c]);
    if d == c {
      CommitKeys(m, c, k);
      CommitIncreases(m, c);
      CommitOneBehind(m.st, k, r.txn, r.commitTs, r.ops, m'.st);
    } else {
      CommitKeysApart(m, c, d, k);
      EndShrinksLocks(m.st.log, r);
      assert BehindAt(m.st, m.calls[d], k);
      RecordBehind(m.st, r, m'.st, m.calls[d], k);
    }
  }

  lemma LogCommitBehind(m: Machine, c: Caller)
    requires Sound(m) && Enabled(m, LogEnd(c)) && m.calls[c].ending.Committing?
    ensures ApplyingBehind(After(m, LogEnd(c)))
  {
    var m' := After(m, LogEnd(c));
    forall d, k | d in m'.calls && AppliesKey(m'.calls[d], k) ensures BehindAt(m'.st, m'.calls[d], k) {
      LogCommitBehindAt(m, c, d, k);
    }
  }

  lemma LogCommitOnce(m: Machine, c: Caller)
    requires Sound(m) && Enabled(m, LogEnd(c)) && m.calls[c].ending.Committing?
    ensures ApplyingOnce(After(m, LogEnd(c)).calls)
  {
    var calls' := After(m, LogEnd(c)).calls;
    forall d, k | d in calls' && d != c && AppliesKey(calls'[d], k) ensures !AppliesKey(calls'[c], k) {
      CommitKeysApart(m, c, d, k);
    }
    forall a, b, k | a in calls' && b in calls' && AppliesKey(calls'[a], k) && AppliesKey(calls'[b], k) ensures a == b {
      assert a == c || b == c || (AppliesKey(m.calls[a], k) && AppliesKey(m.calls[b], k));
    }
  }

  lemma LogCommitRest(m: Machine, c: Caller)
    requires RestUpToDate(m) && Enabled(m, LogEnd(c)) && m.calls[c].ending.Committing?
    ensures RestUpToDate(After(m, LogEnd(c)))
  {
    var m', r := After(m, LogEnd(c)), Record(m.calls[c]);
    forall k | !Unapplied(m'.calls, k) ensures UpToDate(m'.st, k) {
      assert !AppliesKey(m'.calls[c], k);
      assert !Unapplied(m.calls, k) by {
        forall d | d in m.calls ensures !AppliesKey(m.calls[d], k) { assert d != c ==> m'.calls[d] == m.calls[d]; }
      }
      assert UpToDate(m.st, k);
      LastAfter(m.st.log, r, k);
      forall q: Ts ensures Lookup(Stored(m'.st.store, k), q) == LogLookup(m'.st.log, k, q) {
        LookAfter(m.st.log, r, k, q);
      }
    }
  }

  lemma LogCommitFresh(m: Machine, c: Caller)
    requires Sound(m) && Enabled(m, LogEnd(c)) && m.calls[c].ending.Committing?
    ensures LockedFresh(After(m, LogEnd(c)))
  {
    var m', r := After(m, LogEnd(c)), Record(m.calls[c]);
    forall d, k | d in m.calls && m.calls[d].Locked? && k in WriteKeys(m.calls[d].writes) ensures !IsCommitOf(r, k) {
      assert HoldsKey(m.calls[d], k);
      if k in WriteKeys(m.calls[c].taken.value) { CommitKeys(m, c, k); }
    }
    RecordFresh(m, c, r, m');
  }

  lemma LogCommitSound(m: Machine, c: Caller)
    requires Sound(m) && Enabled(m, LogEnd(c)) && m.calls[c].ending.Committing?
    ensures Sound(After(m, LogEnd(c)))
  {
    var call := m.calls[c];
    assert CallLinked(m.st.pending.prepared, m.st.log, call);
    LogEndLinked(m, c);
    CommitKeepsInv(OfLog(m.st.log), call.txn, call.ending.ts);
    OfLogCommit(m.st.log, call.txn, call.ending.ts);
    EndLocks(m, c);
    EndReleased(m, c);
    LogCommitBehind(m, c);
    LogCommitOnce(m, c);
    LogCommitRest(m, c);
    LogCommitFresh(m, c);
  }

  lemma AppliedUpToDate(st: State, k: Key, ts: Ts, ws: seq<Write>, st': State)
    requires k in WriteKeys(ws) && OneBehind(st, k, ts, ws)
    requires st' == st.(store := ApplyWrites(st.store, ws, ts), lastCommit := NoteCommits(st.lastCommit, ws, ts))
    ensures UpToDate(st', k)
  {
    forall q: Ts ensures Lookup(Stored(st'.store, k), q) == LogLookup(st'.log, k, q) {
      ApplyLookup(st.store, ws, ts, k, q);
    }
  }

  lemma OthersApplied(st: State, k: Key, ts: Ts, ws: seq<Write>)
    requires k !in WriteKeys(ws)
    ensures forall q: Ts :: Lookup(Stored(ApplyWrites(st.store, ws, ts), k), q) == Lookup(Stored(st.store, k), q)
    ensures LastIn(NoteCommits(st.lastCommit, ws, ts), k) == LastIn(st.lastCommit, k)
  {
    forall q: Ts ensures Lookup(Stored(ApplyWrites(st.store, ws, ts), k), q) == Lookup(Stored(st.store, k), q) {
      ApplyLookup(st.store, ws, ts, k, q);
    }
  }

  lemma ApplyRest(m: Machine, c: Caller)
    requires RestUpToDate(m) && ApplyingBehind(m) && Enabled(m, Apply(c))
    ensures RestUpToDate(After(m, Apply(c)))
  {
    var m', call := After(m, Apply(c)), m.calls[c];
    forall k | !Unapplied(m'.calls, k) ensures UpToDate(m'.st, k) {
      if k in WriteKeys(call.writes) {
        assert AppliesKey(m.calls[c], k) && BehindAt(m.st, m.calls[c], k);
        AppliedUpToDate(m.st, k, call.ts, call.writes, m'.st);
      } else {
        assert !Unapplied(m.calls, k) by {
          forall d | d in m.calls ensures !AppliesKey(m.calls[d], k) { assert d != c ==> m'.calls[d] == m.calls[d]; }
        }
        assert UpToDate(m.st, k);
        OthersApplied(m.st, k, call.ts, call.writes);
      }
    }
  }

  lemma ApplyBehind(m: Machine, c: Caller)
    requires ApplyingBehind(m) && ApplyingOnce(m.calls) && Enabled(m, Apply(c))
    ensures ApplyingBehind(After(m, Apply(c)))
  {
    var m', call := After(m, Apply(c)), m.calls[c];
    forall d, k | d in m'.calls && AppliesKey(m'.calls[d], k)
      ensures BehindAt(m'.st, m'.calls[d], k)
    {
      assert m.calls[d] == m'.calls[d] && BehindAt(m.st, m.calls[d], k);
      assert !AppliesKey(call, k);
      OthersApplied(m.st, k, call.ts, call.writes);
    }
  }

  lemma ApplySound(m: Machine, c: Caller)
    requires Sound(m) && Enabled(m, Apply(c))
    ensures Sound(After(m, Apply(c)))
  {
    var m' := After(m, Apply(c));
    RefuseLinked(m, Apply(c));
    QuietLocks(m, c, m');
    QuietCalls(m, c, m');
    ApplyRest(m, c);
    ApplyBehind(m, c);
  }

  lemma AppendSound(m: Machine)
    requires Sound(m)
    ensures Sound(After(m, Append))
  {
    AppendLinked(m);
    UnrelatedKeepsInv(OfLog(m.st.log));
    OfLogOther(m.st.log);
    AppendRest(m);
    AppendTracked(m);
  }

  lemma OfLogOther(log: seq<Command>)
    ensures OfLog(log + [Other]) == OfLog(log).(log := log + [Other])
  {
    Snoc(log, Other);
  }

  lemma AppendRest(m: Machine)
    requires RestUpToDate(m)
    ensures RestUpToDate(After(m, Append))
  {
    var m' := After(m, Append);
    forall k | !Unapplied(m'.calls, k) ensures UpToDate(m'.st, k) {
      assert UpToDate(m.st, k);
      LastAfter(m.st.log, Other, k);
      forall q: Ts ensures Lookup(Stored(m'.st.store, k), q) == LogLookup(m'.st.log, k, q) {
        LookAfter(m.st.log, Other, k, q);
      }
    }
  }

  lemma AppendTracked(m: Machine)
    requires ReleasedFree(m) && LockedFresh(m) && ApplyingBehind(m)
    ensures ReleasedFree(After(m, Append)) && LockedFresh(After(m, Append)) && ApplyingBehind(After(m, Append))
  {
    var m' := After(m, Append);
    Snoc(m.st.log, Other);
    forall d, k | d in m'.calls && AppliesKey(m'.calls[d], k)
      ensures BehindAt(m'.st, m'.calls[d], k)
    {
      assert BehindAt(m.st, m.calls[d], k);
      RecordBehind(m.st, Other, m'.st, m.calls[d], k);
    }
    forall d, k | d in m'.calls && m'.calls[d].Locked? && k in WriteKeys(m'.calls[d].writes)
      ensures NotAfter(LastCommitTs(m'.st.log, k), m'.calls[d].readTs)
    {
      assert NotAfter(LastCommitTs(m.st.log, k), m.calls[d].readTs);
      LastAfter(m.st.log, Other, k);
    }
  }

  /** A replay catches up with whatever was logged and not applied. */
  lemma ReplayedUpToDate(m: Machine, k: Key)
    requires ApplyingBehind(m) && RestUpToDate(m)
    ensures UpToDate(Replay(m.st), k)
  {
    assert UpToDate(m.st, k) || Unapplied(m.calls, k);
    if Unapplied(m.calls, k) {
      var d :| d in m.calls && AppliesKey(m.calls[d], k);
      assert BehindAt(m.st, m.calls[d], k);
    }
    ReplayLastIn(m.st.lastCommit, m.st.log, k);
    forall q: Ts ensures Lookup(Stored(Replay(m.st).store, k), q) == LogLookup(m.st.log, k, q) {
      ReplayLookup(m.st.store, m.st.log, k, q);
    }
  }

  lemma CrashSound(m: Machine)
    requires Sound(m)
    ensures Sound(After(m, Section.Crash))
  {
    var m' := After(m, Section.Crash);
    forall k ensures UpToDate(m'.st, k) { ReplayedUpToDate(m, k); }
    assert LocksExact(m'.st.pending);
    assert LocksLive(m');
  }

  lemma StepKeepsSound(m: Machine, e: Section, m': Machine)
    requires Sound(m) && Step(m, e, m') && ClearStep(m, e)
    ensures Sound(m')
  {
    match e
    case Lock(c) => LockSound(m, c);
    case LogPrepare(c) => LogPrepareSound(m, c);
    case Insert(c) => InsertSound(m, c);
    case Take(c) => TakeSound(m, c);
    case Unlock(c) => UnlockSound(m, c);
    case LogEnd(c) => if m.calls[c].ending == Aborting { LogAbortSound(m, c); } else { LogCommitSound(m, c); }
    case Apply(c) => ApplySound(m, c);
    case Append => AppendSound(m);
    case Crash => CrashSound(m);
    case _ =>
      StepKeepsLinked(m, e, m');
      QuietSound(m, e.c, m');
  }

  lemma StartSound()
    ensures Sound(START)
  {
    forall k ensures UpToDate(EMPTY, k) {}
  }

  lemma {:induction false} RunKeepsSound(ms: seq<Machine>, es: seq<Section>, n: nat)
    requires ClearRun(ms, es) && n < |ms|
    ensures Sound(ms[n])
  {
    if n == 0 {
      StartSound();
    } else {
      RunKeepsSound(ms, es, n - 1);
      assert StepAt(ms, es, n - 1) && ClearStep(ms[n - 1], es[n - 1]);
      StepKeepsSound(ms[n - 1], es[n - 1], ms[n]);
    }
  }

  // ---------------------------------------------------------------- main results for clear runs

  lemma SamePrepared(m: Machine)
    requires Linked(m) && m.calls == map[]
    ensures m.st.pending.prepared == Held(m.st.log)
  {
    var p, held := m.st.pending.prepared, Held(m.st.log);
    forall t ensures t in p <==> t in held ensures t in p ==> p[t] == held[t] {
      if t in held { assert Accounted(m, t, held[t]); }
      assert t in p ==> Entry(held, t) == Some(p[t]);
    }
  }

  lemma SameLocks(m: Machine)
    requires Linked(m) && LocksLive(m) && LocksExact(ReplayPending(m.st.log)) && m.calls == map[]
    ensures m.st.pending.locks == ReplayPending(m.st.log).locks
  {
    var p, pl := m.st.pending.locks, ReplayPending(m.st.log).locks;
    SamePrepared(m);
    forall k | k in p ensures LockedBy(pl, k, p[k]) { assert Owned(m, p[k], k); }
    forall k | k in pl ensures LockedBy(p, k, pl[k]) { HeldIsLive(m, pl[k], k); }
    forall k ensures k in p <==> k in pl ensures k in p ==> p[k] == pl[k] {
      assert k in p ==> LockedBy(pl, k, p[k]);
    }
  }

  lemma AllUpToDate(st: State)
    requires forall k :: UpToDate(st, k)
    ensures LastTracks(st.log, st.lastCommit) && StoreMatchesLog(st.store, st.log)
  {
    forall k ensures LastIn(st.lastCommit, k) == LastCommitTs(st.log, k) { assert UpToDate(st, k); }
    forall k, ts: Ts ensures Lookup(Stored(st.store, k), ts) == LogLookup(st.log, k, ts) { assert UpToDate(st, k); }
  }

  lemma IdleSnapshots(st: State)
    requires SnapshotsHold(OfLog(st.log)) && st.pending == ReplayPending(st.log) && LastTracks(st.log, st.lastCommit)
    ensures SnapshotsHold(st)
  {
    forall t, k | t in st.pending.prepared && k in WriteKeys(st.pending.prepared[t]) && k in st.lastCommit
      ensures st.lastCommit[k] <= PrepareTs(st.log, t)
    {
      assert LastIn(st.lastCommit, k) == LastCommitTs(st.log, k);
      LastOfLog(st.log, k);
    }
  }

  /** Between calls the shard is as if every call had been one step. */
  lemma IdleShard(m: Machine)
    requires Sound(m) && m.calls == map[]
    ensures Shard.Inv(m.st)
  {
    SamePrepared(m);
    SameLocks(m);
    forall k ensures UpToDate(m.st, k) { assert !Unapplied(m.calls, k); }
    AllUpToDate(m.st);
    IdleSnapshots(m.st);
  }

  /** Main result: when no call is running, the locks are exactly the prepared keys, commits
      increase along each key, and a replay changes neither what is pending nor any read; and
      a crash at any point, in the middle of any calls, recovers to such a state. */
  lemma ClearRunsStayExact(ms: seq<Machine>, es: seq<Section>, n: nat)
    requires ClearRun(ms, es) && n < |ms|
    ensures ms[n].calls == map[] ==> Shard.Inv(ms[n].st)
    ensures Shard.Inv(Replay(ms[n].st))
    ensures LocksExact(ReplayPending(ms[n].st.log)) && CommitsIncrease(ms[n].st.log)
  {
    RunKeepsSound(ms, es, n);
    CrashSound(ms[n]);
    IdleShard(After(ms[n], Section.Crash));
    if ms[n].calls == map[] { IdleShard(ms[n]); }
  }

  /** Between calls, a snapshot read returns the newest committed version it may see. */
  lemma ClearRunsReadNewest(ms: seq<Machine>, es: seq<Section>, n: nat, k: Key, readTs: Ts)
    requires ClearRun(ms, es) && n < |ms| && ms[n].calls == map[]
    ensures ReadsNewest(ms[n].st, k, readTs)
  {
    ClearRunsStayExact(ms, es, n);
    InvReadsNewest(ms[n].st, k, readTs);
  }

  // ---------------------------------------------------------------- calls that do not overlap

  ghost predicate SerialStep(m: Machine, e: Section) {
    e.Validate? || e.Start? ==> m.calls == map[]
  }

  /** One call at a time, and what it validated still holds when it locks. */
  ghost predicate Alone(m: Machine) {
    && (forall c, d :: c in m.calls && d in m.calls ==> c == d)
    && (forall c :: c in m.calls && m.calls[c].Validated? ==>
          OccValid(m.st.lastCommit, m.calls[c].readTs, WriteKeys(m.calls[c].writes)))
  }

  lemma AloneIsClear(m: Machine, c: Caller)
    requires Sound(m) && Alone(m) && Enabled(m, Lock(c))
    ensures Clear(m, c)
  {
    forall k | k in WriteKeys(m.calls[c].writes) ensures k !in ReplayPending(m.st.log).locks {
      NobodyOwns(m, c, k);
      if k in ReplayPending(m.st.log).locks { HeldIsLive(m, ReplayPending(m.st.log).locks[k], k); }
    }
  }

  lemma AloneStep(m: Machine, e: Section, m': Machine)
    requires Alone(m) && Step(m, e, m') && SerialStep(m, e)
    ensures Alone(m')
  {
  }

  /** Runs in which no call starts before the last one has ended are clear. */
  lemma {:induction false} SerialRunsAreClear(ms: seq<Machine>, es: seq<Section>, n: nat)
    requires Run(ms, es) && n < |ms| && forall i :: 0 <= i < |es| ==> SerialStep(ms[i], es[i])
    ensures Alone(ms[n]) && Sound(ms[n])
    ensures n < |es| ==> ClearStep(ms[n], es[n])
  {
    if n == 0 {
      StartSound();
    } else {
      SerialRunsAreClear(ms, es, n - 1);
      assert StepAt(ms, es, n - 1) && SerialStep(ms[n - 1], es[n - 1]);
      AloneStep(ms[n - 1], es[n - 1], ms[n]);
      StepKeepsSound(ms[n - 1], es[n - 1], ms[n]);
    }
    if n < |es| {
      assert StepAt(ms, es, n);
      if es[n].Lock? { AloneIsClear(ms[n], es[n].c); }
    }
  }

  // ---------------------------------------------------------------- what validation looked at

  /** Whatever the last-commit index notes, the log has; and a commit being applied is logged. */
  ghost predicate NotesLogged(m: Machine) {
    && (forall k :: k in m.st.lastCommit ==> CommitLogged(m.st.log, k, m.st.lastCommit[k]))
    && (forall c, k :: c in m.calls && AppliesKey(m.calls[c], k) ==> CommitLogged(m.st.log, k, m.calls[c].ts))
  }

  ghost predicate CommitLogged(log: seq<Command>, k: Key, ts: Ts) {
    exists j :: 0 <= j < |log| && IsCommitOf(log[j], k) && log[j].commitTs == ts
  }

  lemma StillCommitted(log: seq<Command>, c: Command, k: Key, ts: Ts)
    requires CommitLogged(log, k, ts)
    ensures CommitLogged(log + [c], k, ts)
  {
    var j :| 0 <= j < |log| && IsCommitOf(log[j], k) && log[j].commitTs == ts;
    assert (log + [c])[j] == log[j];
  }

  lemma RecordKeepsNotes(m: Machine, r: Command, m': Machine)
    requires NotesLogged(m) && m'.st.log == m.st.log + [r] && m'.st.lastCommit == m.st.lastCommit
    requires forall c :: c in m'.calls && m'.calls[c].Applying? ==>
      (c in m.calls && m'.calls[c] == m.calls[c]) || r == TxnCommit(m'.calls[c].txn, m'.calls[c].ts, m'.calls[c].writes)
    ensures NotesLogged(m')
  {
    forall k | k in m'.st.lastCommit ensures CommitLogged(m'.st.log, k, m'.st.lastCommit[k]) {
      StillCommitted(m.st.log, r, k, m.st.lastCommit[k]);
    }
    forall c, k | c in m'.calls && AppliesKey(m'.calls[c], k) ensures CommitLogged(m'.st.log, k, m'.calls[c].ts) {
      if c in m.calls && m'.calls[c] == m.calls[c] {
        StillCommitted(m.st.log, r, k, m.calls[c].ts);
      } else {
        assert m'.st.log[|m.st.log|] == r;
      }
    }
  }

  lemma CrashKeepsNotes(m: Machine)
    requires NotesLogged(m)
    ensures NotesLogged(After(m, Section.Crash))
  {
    var last := Replay(m.st).lastCommit;
    forall k | k in last ensures CommitLogged(m.st.log, k, last[k]) {
      ReplayLastIn(m.st.lastCommit, m.st.log, k);
      if LastCommitTs(m.st.log, k).Some? { var j := LastCommitIsLogged(m.st.log, k); }
    }
  }

  lemma SectionKeepsNotes(m: Machine, e: Section)
    requires NotesLogged(m) && Enabled(m, e)
    ensures NotesLogged(After(m, e))
  {
    var m' := After(m, e);
    match e
    case LogPrepare(c) => RecordKeepsNotes(m, TxnPrepare(m.calls[c].txn, m.calls[c].readTs, m.calls[c].writes), m');
    case LogEnd(c) => RecordKeepsNotes(m, Record(m.calls[c]), m');
    case Append => RecordKeepsNotes(m, Other, m');
    case Apply(c) =>
      forall k | k in m'.st.lastCommit ensures CommitLogged(m'.st.log, k, m'.st.lastCommit[k]) {
        assert k in WriteKeys(m.calls[c].writes) ==> AppliesKey(m.calls[c], k);
      }
    case Crash => CrashKeepsNotes(m);
    case _ =>
  }

  lemma {:induction false} RunKeepsNotes(ms: seq<Machine>, es: seq<Section>, n: nat)
    requires Run(ms, es) && n < |ms|
    ensures NotesLogged(ms[n])
  {
    if n > 0 {
      RunKeepsNotes(ms, es, n - 1);
      assert StepAt(ms, es, n - 1);
      SectionKeepsNotes(ms[n - 1], es[n - 1]);
    }
  }

  /** If validation refuses, the log has a commit after the snapshot of a key at some index of
      the read-set or of the writes. */
  lemma RefusedIsStale(m: Machine, e: Section)
    requires NotesLogged(m) && e.Validate? && e.c !in m.calls && !Enabled(m, e)
    ensures Stale(m.st.log, e.readTs, e.writes, e.readSet)
  {
    var st := m.st;
    var k :| k in ReadKeys(e.readSet) + WriteKeys(e.writes) && k in st.lastCommit && st.lastCommit[k] > e.readTs;
    assert CommitLogged(st.log, k, st.lastCommit[k]);
    var j :| 0 <= j < |st.log| && IsCommitOf(st.log[j], k) && st.log[j].commitTs == st.lastCommit[k];
    assert CommitsAfter(st.log, j, k, e.readTs);
    if k in ReadKeys(e.readSet) {
      var i :| 0 <= i < |e.readSet| && e.readSet[i].0 == k;
      assert CommittedAfter(st.log, e.readSet[i].0, e.readTs);
    } else {
      var i :| 0 <= i < |e.writes| && e.writes[i].key == k;
      assert CommittedAfter(st.log, e.writes[i].key, e.readTs);
    }
  }

  /** In every run, clear or not. */
  lemma RefusalHasCause(ms: seq<Machine>, es: seq<Section>, n: nat, e: Section)
    requires Run(ms, es) && n < |ms| && e.Validate? && e.c !in ms[n].calls && !Enabled(ms[n], e)
    ensures Stale(ms[n].st.log, e.readTs, e.writes, e.readSet)
  {
    RunKeepsNotes(ms, es, n);
    RefusedIsStale(ms[n], e);
  }

  /** A commit of `k` after `readTs` that the log has and validation let pass is still being applied. */
  lemma UnseenIsApplying(m: Machine, k: Key, readTs: Ts, j: nat)
    requires Sound(m) && (k in m.st.lastCommit ==> m.st.lastCommit[k] <= readTs)
    requires CommitsAfter(m.st.log, j, k, readTs)
    ensures exists d :: d in m.calls && AppliesKey(m.calls[d], k) && m.calls[d].ts == m.st.log[j].commitTs
  {
    var log := m.st.log;
    assert IsCommitOf(log[j], k);
    CommitAtMostLast(log, k, j);
    assert UpToDate(m.st, k) || Unapplied(m.calls, k);
    if !UpToDate(m.st, k) {
      var d :| d in m.calls && AppliesKey(m.calls[d], k);
      assert BehindAt(m.st, m.calls[d], k);
      if log[j].commitTs < m.calls[d].ts { AtMostBelow(log, k, m.calls[d].ts, j); }
    }
  }

  /** The commit in the log is one of a call in progress, not applied yet. */
  ghost predicate InProgress(m: Machine, j: nat, k: Key) {
    j < |m.st.log| && m.st.log[j].TxnCommit? &&
    exists d :: d in m.calls && AppliesKey(m.calls[d], k) && m.calls[d].ts == m.st.log[j].commitTs
  }

  /** No commit of `k` after `readTs` is in the log, save those of calls in progress. */
  ghost predicate FreshBut(m: Machine, k: Key, readTs: Ts) {
    forall j: nat :: CommitsAfter(m.st.log, j, k, readTs) ==> InProgress(m, j, k)
  }

  /** When validation lets a request pass, the key at every index of its read-set and of its
      writes has no commit after the snapshot in the log, save those of calls in progress. */
  lemma ValidatedIsFresh(m: Machine, e: Section)
    requires Sound(m) && e.Validate? && Enabled(m, e)
    ensures forall i :: 0 <= i < |e.readSet| ==> FreshBut(m, e.readSet[i].0, e.readTs)
    ensures forall i :: 0 <= i < |e.writes| ==> FreshBut(m, e.writes[i].key, e.readTs)
  {
    forall i, j: nat | 0 <= i < |e.readSet| && CommitsAfter(m.st.log, j, e.readSet[i].0, e.readTs)
      ensures InProgress(m, j, e.readSet[i].0)
    {
      assert e.readSet[i].0 in ReadKeys(e.readSet);
      UnseenIsApplying(m, e.readSet[i].0, e.readTs, j);
    }
    forall i, j: nat | 0 <= i < |e.writes| && CommitsAfter(m.st.log, j, e.writes[i].key, e.readTs)
      ensures InProgress(m, j, e.writes[i].key)
    {
      assert e.writes[i].key in WriteKeys(e.writes);
      UnseenIsApplying(m, e.writes[i].key, e.readTs, j);
    }
  }

  lemma ClearRunsValidateFresh(ms: seq<Machine>, es: seq<Section>, n: nat)
    requires ClearRun(ms, es) && n < |es| && es[n].Validate?
    ensures forall i :: 0 <= i < |es[n].readSet| ==> FreshBut(ms[n], es[n].readSet[i].0, es[n].readTs)
    ensures forall i :: 0 <= i < |es[n].writes| ==> FreshBut(ms[n], es[n].writes[i].key, es[n].readTs)
  {
    RunKeepsSound(ms, es, n);
    assert StepAt(ms, es, n);
    ValidatedIsFresh(ms[n], es[n]);
  }

  /** In clear runs a prepare that validated is refused only over a key, at some index of its
      writes, that another transaction has prepared or is preparing or giving up. */
  lemma RefusedOverHeldKey(ms: seq<Machine>, es: seq<Section>, n: nat) returns (i: nat, u: TxnId)
    requires ClearRun(ms, es) && n < |es| && es[n].Refuse?
    ensures es[n].c in ms[n].calls && ms[n].calls[es[n].c].Validated?
    ensures var call := ms[n].calls[es[n].c];
      i < |call.writes| && u != call.txn && Owned(ms[n], u, call.writes[i].key)
  {
    RunKeepsSound(ms, es, n);
    assert StepAt(ms, es, n);
    var call, locks := ms[n].calls[es[n].c], ms[n].st.pending.locks;
    var k :| k in WriteKeys(call.writes) && k in locks && locks[k] != call.txn;
    i :| 0 <= i < |call.writes| && call.writes[i].key == k;
    u := locks[k];
  }
}
