/** Client transactions: snapshot reads, optimistic validation, commit, and the published
    garbage-collection watermark, as one state machine over any number of sessions.

    `history` lists the committed writing transactions with the reads they recorded;
    `published` collects every watermark ever handed to a collector, so that a collector may
    work with a watermark that is already out of date.

    Neither `begin` nor `publish_watermark` (src/engine.rs) is one step: `begin` loads the
    applied index and registers it later, and publishing reads the table of open snapshots,
    loads the applied index if there are none, and sets the watermark later still. */
module Occ {
  import opened Keys
  import opened Mvcc

  type Writes = map<Key, Option<Value>>   // None is a delete

  /** `observed` keeps the value that came with each recorded read timestamp. */
  datatype Session = Session(readTs: Ts, readSet: map<Key, Ts>, observed: map<Key, Option<Value>>, writes: Writes)

  datatype Txn = Txn(ts: Ts, observed: map<Key, Option<Value>>, writes: Writes)

  /** How far a `publish_watermark` call has got: it found no open snapshot, or it knows what
      it will set. */
  datatype Mark = Empty | Chosen(watermark: Ts)

  /** `loaded` are the `begin` calls that have not registered, `marks` the publishing calls. */
  datatype System = System(
    store: Store, sessions: map<nat, Session>, nextId: nat, lastCommit: map<Key, Ts>,
    lastApplied: Ts, published: set<Ts>, history: seq<Txn>, loaded: map<nat, Ts>, marks: map<nat, Mark>)

  const INITIAL := System(map[], map[], 0, map[], 0, {}, [], map[], map[])

  // ---------------------------------------------------------------- sessions

  function Recorded(st: Store, x: Session, k: Key): Session {
    if k in x.readSet then x
    else x.(readSet := x.readSet[k := SeenTs(st, k, x.readTs)],
            observed := x.observed[k := ReadAt(st, k, x.readTs)])
  }

  /** What `session_get` answers: the session's own write, or the snapshot. */
  function Answer(st: Store, x: Session, k: Key): Option<Value> {
    if k in x.writes then x.writes[k] else ReadAt(st, k, x.readTs)
  }

  function AfterGet(st: Store, x: Session, k: Key): Session {
    if k in x.writes then x else Recorded(st, x, k)
  }

  /** `session_put` and `session_delete`. */
  function AfterWrite(st: Store, x: Session, k: Key, op: Option<Value>): Session {
    Recorded(st, x, k).(writes := x.writes[k := op])
  }

  predicate Validates(lastCommit: map<Key, Ts>, x: Session) {
    forall k :: k in x.readSet.Keys + x.writes.Keys && k in lastCommit ==> lastCommit[k] <= x.readTs
  }

  // ---------------------------------------------------------------- watermark

  ghost function MinTs(xs: set<Ts>): (m: Ts)
    requires xs != {}
    ensures m in xs && forall x :: x in xs ==> m <= x
  {
    var x :| x in xs;
    var rest := xs - {x};
    if rest == {} then (assert xs == {x}; x) else
      var m := MinTs(rest);
      assert xs == rest + {x};
      if x < m then x else m
  }

  /** Oldest open snapshot; one past the applied index when none is open. */
  ghost function Watermark(sessions: map<nat, Session>, lastApplied: Ts): Ts {
    var open := set id | id in sessions :: sessions[id].readTs;
    if open == {} then lastApplied + 1 else MinTs(open)
  }

  ghost function Publish(s: System): System {
    s.(published := s.published + {Watermark(s.sessions, s.lastApplied)})
  }

  // ---------------------------------------------------------------- steps

  function Registered(s: System, readTs: Ts): System {
    s.(sessions := s.sessions[s.nextId + 1 := Session(readTs, map[], map[], map[])], nextId := s.nextId + 1)
  }

  ghost function Begin(s: System): System { Publish(Registered(s, s.lastApplied)) }

  ghost function End(s: System, id: nat): System {
    Publish(s.(sessions := s.sessions - {id}))
  }

  function Versions(ws: Writes, ts: Ts): (st: Store)
    ensures forall ik :: ik in st <==> ik.ts == ts && ik.key in ws
    ensures forall ik :: ik in st ==> st[ik] == ws[ik.key]
  {
    var keys := set k | k in ws :: InternalKey(k, ts);
    map ik | ik in keys :: ws[ik.key]
  }

  function Noted(lastCommit: map<Key, Ts>, keys: set<Key>, ts: Ts): map<Key, Ts> {
    map k | k in lastCommit.Keys + keys :: if k in keys then ts else lastCommit[k]
  }

  /** The write batch is applied at the next log index and noted for validation. */
  function AppliedBatch(s: System, x: Session): System {
    var ts := s.lastApplied + 1;
    s.(store := s.store + Versions(x.writes, ts),
       lastCommit := Noted(s.lastCommit, x.writes.Keys, ts),
       lastApplied := ts,
       history := s.history + [Txn(ts, x.observed, x.writes)])
  }

  function Applied(s: System, id: nat): System
    requires id in s.sessions
  {
    AppliedBatch(s.(sessions := s.sessions - {id}), s.sessions[id])
  }

  /** A commit up to its `publish_watermark`. */
  function Committed(s: System, id: nat): System
    requires id in s.sessions
  {
    var x := s.sessions[id];
    if x.writes == map[] || !Validates(s.lastCommit, x) then s.(sessions := s.sessions - {id}) else Applied(s, id)
  }

  ghost function Commit(s: System, id: nat): System
    requires id in s.sessions
  {
    Publish(Committed(s, id))
  }

  function RegisteredLate(s: System, b: nat): System
    requires b in s.loaded
  {
    Registered(s, s.loaded[b]).(loaded := s.loaded - {b})
  }

  ghost function TableMark(sessions: map<nat, Session>): Mark {
    if sessions == map[] then Empty else Chosen(Watermark(sessions, 0))
  }

  function MarkSet(s: System, p: nat): System
    requires p in s.marks && s.marks[p].Chosen?
  {
    s.(published := s.published + {s.marks[p].watermark}, marks := s.marks - {p})
  }

  datatype Action =
    | BeginTxn
    | Get(id: nat, key: Key)
    | Write(id: nat, key: Key, op: Option<Value>)
    | CommitTxn(id: nat)
    | EndTxn(id: nat)                  // abort, or a commit refused before the log took it
    | OtherEntry                       // a log entry that writes no key
    | Collect(watermark: Ts, dead: set<InternalKey>)
    // the calls above, taken apart
    | Load(b: nat)
    | Register(b: nat)
    | CommitQuietly(id: nat)
    | EndQuietly(id: nat)
    | ReadTable(p: nat)
    | LoadApplied(p: nat)
    | SetMark(p: nat)

  ghost predicate Step(s: System, a: Action, s': System) {
    match a
    case BeginTxn => s' == Begin(s)
    case Get(id, k) => id in s.sessions && s' == s.(sessions := s.sessions[id := AfterGet(s.store, s.sessions[id], k)])
    case Write(id, k, op) =>
      id in s.sessions && s' == s.(sessions := s.sessions[id := AfterWrite(s.store, s.sessions[id], k, op)])
    case CommitTxn(id) => id in s.sessions && s' == Commit(s, id)
    case EndTxn(id) => id in s.sessions && s' == End(s, id)
    case OtherEntry => s' == s.(lastApplied := s.lastApplied + 1)
    case Collect(w, dead) => w in s.published && Collectable(s.store, dead, w) && s' == s.(store := s.store - dead)
    case Load(b) => s' == s.(loaded := s.loaded[b := s.lastApplied])
    case Register(b) => b in s.loaded && s' == RegisteredLate(s, b)
    case CommitQuietly(id) => id in s.sessions && s' == Committed(s, id)
    case EndQuietly(id) => id in s.sessions && s' == s.(sessions := s.sessions - {id})
    case ReadTable(p) => s' == s.(marks := s.marks[p := TableMark(s.sessions)])
    case LoadApplied(p) =>
      p in s.marks && s.marks[p] == Empty && s' == s.(marks := s.marks[p := Chosen(s.lastApplied + 1)])
    case SetMark(p) => p in s.marks && s.marks[p].Chosen? && s' == MarkSet(s, p)
  }

  ghost predicate Path(ss: seq<System>, acts: seq<Action>) {
    && |ss| == |acts| + 1
    && forall i {:trigger acts[i]} :: 0 <= i < |acts| ==> Step(ss[i], acts[i], ss[i + 1])
  }

  predicate Covers(sessions: map<nat, Session>, w: Ts) {
    forall id :: id in sessions ==> w <= sessions[id].readTs + 1
  }

  /** The condition on calls that other calls came in between of: a snapshot is registered
      while no watermark beyond it was published, and a watermark is set while no snapshot
      older than it is open. */
  ghost predicate InTime(s: System, a: Action) {
    match a
    case Register(b) => b in s.loaded ==> Above(s.published, s.loaded[b])
    case SetMark(p) => p in s.marks && s.marks[p].Chosen? ==> Covers(s.sessions, s.marks[p].watermark)
    case _ => true
  }

  ghost predicate Run(ss: seq<System>, acts: seq<Action>) {
    && Path(ss, acts) && ss[0] == INITIAL
    && forall i {:trigger acts[i]} :: 0 <= i < |acts| ==> InTime(ss[i], acts[i])
  }

  // ---------------------------------------------------------------- serial execution

  type Db = map<Key, Value>

  function At(db: Db, k: Key): Option<Value> {
    if k in db then Some(db[k]) else None
  }

  function Exec(db: Db, ws: Writes): (r: Db)
    ensures forall k :: At(r, k) == if k in ws then ws[k] else At(db, k)
  {
    map k | k in db.Keys + ws.Keys && (k in ws ==> ws[k].Some?) :: if k in ws then ws[k].value else db[k]
  }

  /** One transaction after another, in commit order. */
  function Serial(h: seq<Txn>): Db {
    if h == [] then map[] else Exec(Serial(h[..|h| - 1]), h[|h| - 1].writes)
  }

  /** The serial state after the transactions with commit timestamp at most `ts`. */
  function SerialAt(h: seq<Txn>, ts: Ts): Db {
    if h == [] then map[]
    else if h[|h| - 1].ts <= ts then Serial(h)
    else SerialAt(h[..|h| - 1], ts)
  }

  /** Replaying transaction i alone on the state left by its predecessors shows it every
      value it recorded. */
  ghost predicate Serializable(h: seq<Txn>) {
    forall i, k :: 0 <= i < |h| && k in h[i].observed ==> h[i].observed[k] == At(Serial(h[..i]), k)
  }

  // ---------------------------------------------------------------- invariant

  ghost predicate Clocked(st: Store, h: seq<Txn>, lastApplied: Ts) {
    && (forall ik :: ik in st ==> ik.ts <= lastApplied)
    && (forall i :: 0 <= i < |h| ==> h[i].ts <= lastApplied)
    && (forall i, j :: 0 <= i < j < |h| ==> h[i].ts < h[j].ts)
  }

  ghost predicate NotesExact(lastCommit: map<Key, Ts>, h: seq<Txn>) {
    && (forall i, k :: 0 <= i < |h| && k in h[i].writes ==> k in lastCommit && h[i].ts <= lastCommit[k])
    && (forall k :: k in lastCommit ==> exists i :: 0 <= i < |h| && h[i].ts == lastCommit[k] && k in h[i].writes)
  }

  ghost predicate Above(published: set<Ts>, readTs: Ts) {
    forall w :: w in published ==> w <= readTs + 1
  }

  ghost predicate Guarded(published: set<Ts>, sessions: map<nat, Session>, lastApplied: Ts) {
    && Above(published, lastApplied)
    && forall id :: id in sessions ==> sessions[id].readTs <= lastApplied && Above(published, sessions[id].readTs)
  }

  /** Every snapshot no collector may have touched reads the serial state of its time. */
  ghost predicate Faithful(st: Store, h: seq<Txn>, published: set<Ts>) {
    forall k: Key, r: Ts {:trigger ReadAt(st, k, r)} :: Above(published, r) ==>
      ReadAt(st, k, r) == At(SerialAt(h, r), k)
  }

  ghost predicate SessionOk(x: Session, h: seq<Txn>) {
    && x.observed.Keys == x.readSet.Keys
    && forall k :: k in x.observed ==> x.observed[k] == At(SerialAt(h, x.readTs), k)
  }

  ghost predicate SessionsOk(sessions: map<nat, Session>, h: seq<Txn>) {
    forall id :: id in sessions ==> SessionOk(sessions[id], h)
  }

  /** What the calls in progress have loaded is not ahead of the log. */
  ghost predicate CallsClocked(loaded: map<nat, Ts>, marks: map<nat, Mark>, lastApplied: Ts) {
    && (forall b :: b in loaded ==> loaded[b] <= lastApplied)
    && (forall p :: p in marks && marks[p].Chosen? ==> marks[p].watermark <= lastApplied + 1)
  }

  ghost predicate Timely(s: System) {
    && Clocked(s.store, s.history, s.lastApplied)
    && Guarded(s.published, s.sessions, s.lastApplied)
    && CallsClocked(s.loaded, s.marks, s.lastApplied)
    && forall id :: id in s.sessions ==> id <= s.nextId
  }

  ghost predicate Inv(s: System) {
    && Timely(s)
    && NotesExact(s.lastCommit, s.history)
    && Faithful(s.store, s.history, s.published)
    && SessionsOk(s.sessions, s.history)
    && Serializable(s.history)
  }

  // ---------------------------------------------------------------- serial execution lemmas

  lemma SerialSnoc(h: seq<Txn>, t: Txn, k: Key)
    ensures At(Serial(h + [t]), k) == if k in t.writes then t.writes[k] else At(Serial(h), k)
  {
    assert (h + [t])[..|h|] == h;
  }

  lemma SerialAtSnoc(h: seq<Txn>, t: Txn, ts: Ts)
    ensures SerialAt(h + [t], ts) == if t.ts <= ts then Serial(h + [t]) else SerialAt(h, ts)
  {
    assert (h + [t])[..|h|] == h;
  }

  /** Past the last commit the serial state stands still. */
  lemma SerialAtEnd(h: seq<Txn>, ts: Ts)
    requires forall i :: 0 <= i < |h| ==> h[i].ts <= ts
    ensures SerialAt(h, ts) == Serial(h)
  {
    if h != [] { assert h[|h| - 1].ts <= ts; }
  }

  /** A key nobody wrote after `ts` still has its value of time `ts`. */
  lemma {:induction false} Untouched(h: seq<Txn>, ts: Ts, k: Key)
    requires forall i :: 0 <= i < |h| && h[i].ts > ts ==> k !in h[i].writes
    ensures At(Serial(h), k) == At(SerialAt(h, ts), k)
  {
    if h != [] && h[|h| - 1].ts > ts {
      var front := h[..|h| - 1];
      assert forall i :: 0 <= i < |front| ==> front[i] == h[i];
      Untouched(front, ts, k);
      assert At(Serial(h), k) == At(Serial(front), k);
    }
  }

  // ---------------------------------------------------------------- commit

  /** Validation refuses exactly the transactions whose footprint was overwritten after
      their snapshot. */
  lemma ValidatesExactly(lastCommit: map<Key, Ts>, h: seq<Txn>, x: Session)
    requires NotesExact(lastCommit, h)
    ensures Validates(lastCommit, x) <==>
      forall i, k :: 0 <= i < |h| && k in h[i].writes && k in x.readSet.Keys + x.writes.Keys ==> h[i].ts <= x.readTs
  {
    if !Validates(lastCommit, x) {
      var k :| k in x.readSet.Keys + x.writes.Keys && k in lastCommit && lastCommit[k] > x.readTs;
      var i :| 0 <= i < |h| && h[i].ts == lastCommit[k] && k in h[i].writes;
    }
  }

  lemma CommitSerializable(lastCommit: map<Key, Ts>, h: seq<Txn>, x: Session, t: Txn)
    requires NotesExact(lastCommit, h) && Serializable(h) && SessionOk(x, h) && Validates(lastCommit, x)
    requires t.observed == x.observed
    ensures Serializable(h + [t])
  {
    ValidatesExactly(lastCommit, h, x);
    var h' := h + [t];
    forall i, k | 0 <= i < |h'| && k in h'[i].observed
      ensures h'[i].observed[k] == At(Serial(h'[..i]), k)
    {
      if i < |h| {
        assert h'[..i] == h[..i];
      } else {
        assert h'[..i] == h;
        assert k in x.readSet.Keys + x.writes.Keys;
        Untouched(h, x.readTs, k);
      }
    }
  }

  lemma CommitReads(st: Store, h: seq<Txn>, lastApplied: Ts, t: Txn, published: set<Ts>, k: Key, r: Ts)
    requires Clocked(st, h, lastApplied) && Faithful(st, h, published) && Above(published, r)
    requires t.ts == lastApplied + 1
    ensures ReadAt(st + Versions(t.writes, t.ts), k, r) == At(SerialAt(h + [t], r), k)
  {
    var st' := st + Versions(t.writes, t.ts);
    SerialAtSnoc(h, t, r);
    if r < t.ts {
      SameReads(st, st', k, r);
    } else {
      SerialAtEnd(h, r);
      SerialSnoc(h, t, k);
      if k in t.writes {
        SeenUnique(st', k, r, t.ts);
      } else {
        SameReads(st, st', k, r);
      }
    }
  }

  lemma CommitNotes(lastCommit: map<Key, Ts>, h: seq<Txn>, t: Txn)
    requires NotesExact(lastCommit, h) && forall i :: 0 <= i < |h| ==> h[i].ts < t.ts
    ensures NotesExact(Noted(lastCommit, t.writes.Keys, t.ts), h + [t])
  {
    var h', notes := h + [t], Noted(lastCommit, t.writes.Keys, t.ts);
    forall k | k in notes ensures exists i :: 0 <= i < |h'| && h'[i].ts == notes[k] && k in h'[i].writes {
      if k in t.writes {
        assert h'[|h|] == t;
      } else {
        var i :| 0 <= i < |h| && h[i].ts == lastCommit[k] && k in h[i].writes;
        assert h'[i] == h[i];
      }
    }
  }

  lemma SessionsKeep(sessions: map<nat, Session>, h: seq<Txn>, t: Txn)
    requires SessionsOk(sessions, h) && forall id :: id in sessions ==> sessions[id].readTs < t.ts
    ensures SessionsOk(sessions, h + [t])
  {
    forall id | id in sessions ensures SessionOk(sessions[id], h + [t]) {
      SerialAtSnoc(h, t, sessions[id].readTs);
    }
  }

  lemma CommitFaithful(st: Store, h: seq<Txn>, lastApplied: Ts, t: Txn, published: set<Ts>)
    requires Clocked(st, h, lastApplied) && Faithful(st, h, published) && t.ts == lastApplied + 1
    ensures Faithful(st + Versions(t.writes, t.ts), h + [t], published)
  {
    var st' := st + Versions(t.writes, t.ts);
    forall k: Key, r: Ts | Above(published, r)
      ensures ReadAt(st', k, r) == At(SerialAt(h + [t], r), k)
    {
      CommitReads(st, h, lastApplied, t, published, k, r);
    }
  }

  lemma CommitClocked(st: Store, h: seq<Txn>, lastApplied: Ts, t: Txn)
    requires Clocked(st, h, lastApplied) && t.ts == lastApplied + 1
    ensures Clocked(st + Versions(t.writes, t.ts), h + [t], t.ts)
  {
  }

  lemma AppliedGuarded(published: set<Ts>, sessions: map<nat, Session>, lastApplied: Ts, id: nat)
    requires Guarded(published, sessions, lastApplied)
    ensures Guarded(published, sessions - {id}, lastApplied + 1)
  {
  }

  lemma AppliedTimely(s: System, id: nat)
    requires Timely(s) && id in s.sessions
    ensures Timely(Applied(s, id))
  {
    AppliedGuarded(s.published, s.sessions, s.lastApplied, id);
    CommitClocked(s.store, s.history, s.lastApplied,
                  Txn(s.lastApplied + 1, s.sessions[id].observed, s.sessions[id].writes));
  }

  lemma OlderThanNext(s: System, id: nat)
    requires Timely(s)
    ensures forall i :: 0 <= i < |s.history| ==> s.history[i].ts < s.lastApplied + 1
    ensures forall d :: d in s.sessions - {id} ==> s.sessions[d].readTs < s.lastApplied + 1
  {
  }

  lemma FewerSessions(sessions: map<nat, Session>, h: seq<Txn>, id: nat)
    requires SessionsOk(sessions, h)
    ensures SessionsOk(sessions - {id}, h)
  {
  }

  lemma AppliedRest(s: System, id: nat, t: Txn)
    requires Timely(s) && NotesExact(s.lastCommit, s.history) && SessionsOk(s.sessions, s.history)
    requires Faithful(s.store, s.history, s.published) && t.ts == s.lastApplied + 1
    ensures NotesExact(Noted(s.lastCommit, t.writes.Keys, t.ts), s.history + [t])
    ensures SessionsOk(s.sessions - {id}, s.history + [t])
    ensures Faithful(s.store + Versions(t.writes, t.ts), s.history + [t], s.published)
  {
    OlderThanNext(s, id);
    CommitNotes(s.lastCommit, s.history, t);
    FewerSessions(s.sessions, s.history, id);
    SessionsKeep(s.sessions - {id}, s.history, t);
    CommitFaithful(s.store, s.history, s.lastApplied, t, s.published);
  }

  lemma AppliedKeepsInv(s: System, id: nat)
    requires Inv(s) && id in s.sessions && Validates(s.lastCommit, s.sessions[id])
    ensures Inv(Applied(s, id))
  {
    var x := s.sessions[id];
    var t := Txn(s.lastApplied + 1, x.observed, x.writes);
    AppliedTimely(s, id);
    AppliedRest(s, id, t);
    CommitSerializable(s.lastCommit, s.history, x, t);
    AppliedFields(s, id, t);
    Assemble(Applied(s, id), s.store + Versions(t.writes, t.ts), Noted(s.lastCommit, t.writes.Keys, t.ts),
             s.history + [t], s.sessions - {id}, s.published);
  }

  lemma AppliedFields(s: System, id: nat, t: Txn)
    requires id in s.sessions && t == Txn(s.lastApplied + 1, s.sessions[id].observed, s.sessions[id].writes)
    ensures var s' := Applied(s, id);
      && s'.store == s.store + Versions(t.writes, t.ts) && s'.lastCommit == Noted(s.lastCommit, t.writes.Keys, t.ts)
      && s'.history == s.history + [t] && s'.sessions == s.sessions - {id} && s'.published == s.published
  {
  }

  lemma Assemble(s: System, st: Store, notes: map<Key, Ts>, h: seq<Txn>, sessions: map<nat, Session>,
                 published: set<Ts>)
    requires Timely(s) && NotesExact(notes, h) && Faithful(st, h, published) && SessionsOk(sessions, h) &&
             Serializable(h)
    requires s.store == st && s.lastCommit == notes && s.history == h && s.sessions == sessions &&
             s.published == published
    ensures Inv(s)
  {
  }

  // ---------------------------------------------------------------- the other steps

  /** A new watermark never passes an open snapshot, nor the one the next `begin` takes. */
  lemma PublishKeepsInv(s: System)
    requires Inv(s)
    ensures Inv(Publish(s))
  {
    var open := set id | id in s.sessions :: s.sessions[id].readTs;
    forall id | id in s.sessions ensures s.sessions[id].readTs in open {}
  }

  lemma RegisteredKeepsInv(s: System, readTs: Ts)
    requires Inv(s) && readTs <= s.lastApplied && Above(s.published, readTs)
    ensures Inv(Registered(s, readTs))
  {
  }

  /** Registering late is as good as at once exactly when no watermark beyond what was loaded
      was published meanwhile. */
  lemma RegisterExact(s: System, b: nat)
    requires Inv(s) && b in s.loaded
    ensures Inv(RegisteredLate(s, b)) <==> Above(s.published, s.loaded[b])
  {
    if Inv(RegisteredLate(s, b)) {
      assert RegisteredLate(s, b).sessions[s.nextId + 1].readTs == s.loaded[b];
    }
    if Above(s.published, s.loaded[b]) {
      RegisteredKeepsInv(s, s.loaded[b]);
    }
  }

  /** Setting a watermark late is as good as at once exactly when no older snapshot has been
      registered since the table was read. */
  lemma SetMarkExact(s: System, p: nat)
    requires Inv(s) && p in s.marks && s.marks[p].Chosen?
    ensures Inv(MarkSet(s, p)) <==> Covers(s.sessions, s.marks[p].watermark)
  {
    var w := s.marks[p].watermark;
    if Inv(MarkSet(s, p)) {
      forall id | id in s.sessions ensures w <= s.sessions[id].readTs + 1 {
        assert Above(MarkSet(s, p).published, s.sessions[id].readTs);
      }
    }
  }

  lemma BeginKeepsInv(s: System)
    requires Inv(s)
    ensures Inv(Begin(s))
  {
    RegisteredKeepsInv(s, s.lastApplied);
    PublishKeepsInv(Registered(s, s.lastApplied));
  }

  lemma RecordedOk(st: Store, h: seq<Txn>, published: set<Ts>, x: Session, k: Key)
    requires SessionOk(x, h) && Faithful(st, h, published) && Above(published, x.readTs)
    ensures SessionOk(Recorded(st, x, k), h)
  {
  }

  lemma CollectKeepsInv(s: System, w: Ts, dead: set<InternalKey>)
    requires Inv(s) && w in s.published && Collectable(s.store, dead, w)
    ensures Inv(s.(store := s.store - dead))
  {
    forall k: Key, r: Ts | Above(s.published, r)
      ensures ReadAt(s.store - dead, k, r) == At(SerialAt(s.history, r), k)
    {
      CollectKeepsReads(s.store, dead, w, k, r);
    }
  }

  lemma EndKeepsInv(s: System, id: nat)
    requires Inv(s)
    ensures Inv(s.(sessions := s.sessions - {id}))
  {
    FewerSessions(s.sessions, s.history, id);
  }

  lemma CommittedKeepsInv(s: System, id: nat)
    requires Inv(s) && id in s.sessions
    ensures Inv(Committed(s, id))
  {
    if s.sessions[id].writes == map[] || !Validates(s.lastCommit, s.sessions[id]) {
      EndKeepsInv(s, id);
    } else {
      AppliedKeepsInv(s, id);
    }
  }

  lemma SessionMoves(s: System, id: nat, x: Session)
    requires Inv(s) && id in s.sessions && x.readTs == s.sessions[id].readTs && SessionOk(x, s.history)
    ensures Inv(s.(sessions := s.sessions[id := x]))
  {
  }

  /** The table was not empty: its oldest snapshot is not ahead of the log. */
  lemma TableClocked(sessions: map<nat, Session>, lastApplied: Ts)
    requires forall id :: id in sessions ==> sessions[id].readTs <= lastApplied
    ensures TableMark(sessions).Chosen? ==> TableMark(sessions).watermark <= lastApplied
  {
    if sessions != map[] {
      var id :| id in sessions;
      var open := set d | d in sessions :: sessions[d].readTs;
      assert sessions[id].readTs in open;
    }
  }

  lemma MarkKeepsInv(s: System, p: nat, m: Mark)
    requires Inv(s) && (m.Chosen? ==> m.watermark <= s.lastApplied + 1)
    ensures Inv(s.(marks := s.marks[p := m]))
  {
  }

  lemma WholeCallKeepsInv(s: System, a: Action, s': System)
    requires Inv(s) && Step(s, a, s') && (a.BeginTxn? || a.CommitTxn? || a.EndTxn? || a.OtherEntry? || a.Collect?)
    ensures Inv(s')
  {
    match a
    case BeginTxn => BeginKeepsInv(s);
    case CommitTxn(id) =>
      CommittedKeepsInv(s, id);
      PublishKeepsInv(Committed(s, id));
    case EndTxn(id) =>
      EndKeepsInv(s, id);
      PublishKeepsInv(s.(sessions := s.sessions - {id}));
    case OtherEntry =>
    case Collect(w, dead) => CollectKeepsInv(s, w, dead);
  }

  lemma StepKeepsInv(s: System, a: Action, s': System)
    requires Inv(s) && Step(s, a, s') && InTime(s, a)
    ensures Inv(s')
  {
    match a
    case Get(id, k) =>
      RecordedOk(s.store, s.history, s.published, s.sessions[id], k);
      SessionMoves(s, id, AfterGet(s.store, s.sessions[id], k));
    case Write(id, k, op) =>
      RecordedOk(s.store, s.history, s.published, s.sessions[id], k);
      SessionMoves(s, id, AfterWrite(s.store, s.sessions[id], k, op));
    case Load(b) =>
    case Register(b) => RegisterExact(s, b);
    case CommitQuietly(id) => CommittedKeepsInv(s, id);
    case EndQuietly(id) => EndKeepsInv(s, id);
    case ReadTable(p) =>
      TableClocked(s.sessions, s.lastApplied);
      MarkKeepsInv(s, p, TableMark(s.sessions));
    case LoadApplied(p) => MarkKeepsInv(s, p, Chosen(s.lastApplied + 1));
    case SetMark(p) => SetMarkExact(s, p);
    case _ => WholeCallKeepsInv(s, a, s');
  }

  lemma {:induction false} RunKeepsInv(ss: seq<System>, acts: seq<Action>, n: nat)
    requires Run(ss, acts) && n < |ss|
    ensures Inv(ss[n])
    decreases n
  {
    if n > 0 {
      RunKeepsInv(ss, acts, n - 1);
      var a := acts[n - 1];
      StepKeepsInv(ss[n - 1], a, ss[n]);
    }
  }

  // ---------------------------------------------------------------- main results

  /** Every run of interleaved sessions, with collectors working from any published
      watermark, is serializable in commit order and ends in the serial store. */
  lemma RunsAreSerializable(ss: seq<System>, acts: seq<Action>, n: nat, k: Key)
    requires Run(ss, acts) && n < |ss|
    ensures Serializable(ss[n].history)
    ensures forall i, j :: 0 <= i < j < |ss[n].history| ==> ss[n].history[i].ts < ss[n].history[j].ts
    ensures ReadAt(ss[n].store, k, ss[n].lastApplied) == At(Serial(ss[n].history), k)
  {
    RunKeepsInv(ss, acts, n);
    SerialAtEnd(ss[n].history, ss[n].lastApplied);
  }

  /** Every answer an open session gets, whether or not it ever commits, is its own write
      or the serial state of its snapshot. */
  lemma AnswersAreSerial(ss: seq<System>, acts: seq<Action>, n: nat, id: nat, k: Key)
    requires Run(ss, acts) && n < |ss| && id in ss[n].sessions
    ensures var x := ss[n].sessions[id];
      Answer(ss[n].store, x, k) == if k in x.writes then x.writes[k] else At(SerialAt(ss[n].history, x.readTs), k)
  {
    RunKeepsInv(ss, acts, n);
  }

  lemma CommittedKeepsSnapshot(s: System, i: nat, id: nat, k: Key)
    requires Timely(s) && i in s.sessions && id in Committed(s, i).sessions
    ensures id in s.sessions && s.sessions[id] == Committed(s, i).sessions[id]
    ensures ReadAt(Committed(s, i).store, k, s.sessions[id].readTs) == ReadAt(s.store, k, s.sessions[id].readTs)
  {
    var s' := Committed(s, i);
    if s'.store != s.store { SameReads(s.store, s'.store, k, s'.sessions[id].readTs); }
  }

  lemma StepKeepsSnapshot(s: System, a: Action, s': System, id: nat, k: Key)
    requires Timely(s) && Step(s, a, s')
    requires id in s'.sessions && id <= s.nextId
    ensures s.nextId <= s'.nextId
    ensures id in s.sessions && s.sessions[id].readTs == s'.sessions[id].readTs
    ensures ReadAt(s'.store, k, s'.sessions[id].readTs) == ReadAt(s.store, k, s'.sessions[id].readTs)
  {
    match a
    case CommitTxn(i) => CommittedKeepsSnapshot(s, i, id, k);
    case CommitQuietly(i) => CommittedKeepsSnapshot(s, i, id, k);
    case Collect(w, dead) => CollectKeepsReads(s.store, dead, w, k, s'.sessions[id].readTs);
    case _ =>
  }

  /** An open transaction reads the same value of every key from its first step to its
      last, whatever commits and collections happen meanwhile. */
  lemma {:induction false} SnapshotNeverMoves(ss: seq<System>, acts: seq<Action>, i: nat, j: nat, id: nat, k: Key)
    requires Run(ss, acts) && i <= j < |ss|
    requires id <= ss[i].nextId && id in ss[j].sessions
    ensures ss[i].nextId <= ss[j].nextId
    ensures id in ss[i].sessions && ss[i].sessions[id].readTs == ss[j].sessions[id].readTs
    ensures ReadAt(ss[j].store, k, ss[j].sessions[id].readTs) == ReadAt(ss[i].store, k, ss[i].sessions[id].readTs)
    decreases j - i
  {
    if i < j {
      IdsGrow(ss, acts, i, j - 1);
      RunStepKeepsSnapshot(ss, acts, j - 1, id, k);
      SnapshotNeverMoves(ss, acts, i, j - 1, id, k);
    }
  }

  lemma RunStepKeepsSnapshot(ss: seq<System>, acts: seq<Action>, i: nat, id: nat, k: Key)
    requires Run(ss, acts) && i < |acts|
    requires id <= ss[i].nextId && id in ss[i + 1].sessions
    ensures ss[i].nextId <= ss[i + 1].nextId
    ensures id in ss[i].sessions && ss[i].sessions[id].readTs == ss[i + 1].sessions[id].readTs
    ensures ReadAt(ss[i + 1].store, k, ss[i + 1].sessions[id].readTs) ==
      ReadAt(ss[i].store, k, ss[i + 1].sessions[id].readTs)
  {
    RunTimely(ss, acts, i);
    var a := acts[i];
    StepKeepsSnapshot(ss[i], a, ss[i + 1], id, k);
  }

  lemma RunTimely(ss: seq<System>, acts: seq<Action>, n: nat)
    requires Run(ss, acts) && n < |ss|
    ensures Timely(ss[n])
  {
    RunKeepsInv(ss, acts, n);
  }

  lemma {:induction false} IdsGrow(ss: seq<System>, acts: seq<Action>, i: nat, j: nat)
    requires Run(ss, acts) && i <= j < |ss|
    ensures ss[i].nextId <= ss[j].nextId
    decreases j - i
  {
    if i < j {
      IdsGrow(ss, acts, i, j - 1);
      assert Step(ss[j - 1], acts[j - 1], ss[j]);
    }
  }

  /** First committer wins: a commit with writes enters the history exactly when nobody
      overwrote its footprint after its snapshot. */
  lemma CommitDecision(ss: seq<System>, acts: seq<Action>, n: nat, id: nat)
    requires Run(ss, acts) && n < |acts| && (acts[n] == CommitTxn(id) || acts[n] == CommitQuietly(id))
    requires id in ss[n].sessions && ss[n].sessions[id].writes != map[]
    ensures var h, x := ss[n].history, ss[n].sessions[id];
      if forall i, k :: 0 <= i < |h| && k in h[i].writes && k in x.readSet.Keys + x.writes.Keys ==> h[i].ts <= x.readTs
      then ss[n + 1].history == h + [Txn(ss[n].lastApplied + 1, x.observed, x.writes)]
      else ss[n + 1].history == h && ss[n + 1].store == ss[n].store
  {
    RunKeepsInv(ss, acts, n);
    ValidatesExactly(ss[n].lastCommit, ss[n].history, ss[n].sessions[id]);
    assert Step(ss[n], acts[n], ss[n + 1]);
  }

  ghost predicate Shows(db: Db, t: Txn) {
    forall k :: k in t.observed ==> t.observed[k] == At(db, k)
  }

  ghost predicate KeptAlone(P: Db -> bool, h: seq<Txn>) {
    forall i, db: Db {:trigger Shows(db, h[i])} ::
      0 <= i < |h| && P(db) && Shows(db, h[i]) ==> P(Exec(db, h[i].writes))
  }

  lemma {:induction false} PrefixesSatisfy(P: Db -> bool, h: seq<Txn>, n: nat)
    requires Serializable(h) && P(map[]) && KeptAlone(P, h) && n <= |h|
    ensures P(Serial(h[..n]))
    decreases n
  {
    if n > 0 {
      PrefixesSatisfy(P, h, n - 1);
      assert h[..n][..n - 1] == h[..n - 1];
      assert Shows(Serial(h[..n - 1]), h[n - 1]);
    }
  }

  lemma {:induction false} SerialAtIsPrefix(h: seq<Txn>, ts: Ts) returns (n: nat)
    ensures n <= |h| && SerialAt(h, ts) == Serial(h[..n])
  {
    if h == [] || h[|h| - 1].ts <= ts {
      n := |h|;
      assert h[..n] == h;
    } else {
      n := SerialAtIsPrefix(h[..|h| - 1], ts);
      assert h[..|h| - 1][..n] == h[..n];
    }
  }

  /** A predicate each transaction keeps when run alone on a state showing it what it read
      (a bank total, say) holds of the committed store and of every open snapshot. */
  lemma InvariantsHoldInEverySnapshot(ss: seq<System>, acts: seq<Action>, n: nat, P: Db -> bool)
    requires Run(ss, acts) && n < |ss|
    requires P(map[]) && KeptAlone(P, ss[n].history)
    ensures P(Serial(ss[n].history))
    ensures forall id :: id in ss[n].sessions ==> P(SerialAt(ss[n].history, ss[n].sessions[id].readTs))
  {
    var h := ss[n].history;
    RunKeepsInv(ss, acts, n);
    PrefixesSatisfy(P, h, |h|);
    assert h[..|h|] == h;
    forall id | id in ss[n].sessions ensures P(SerialAt(h, ss[n].sessions[id].readTs)) {
      var m := SerialAtIsPrefix(h, ss[n].sessions[id].readTs);
      PrefixesSatisfy(P, h, m);
    }
  }

  // ---------------------------------------------------------------- whole calls

  /** The parts of a publishing call, back to back, are the whole call. */
  lemma PublishInParts(s: System, p: nat) returns (ss: seq<System>, acts: seq<Action>)
    requires p !in s.marks
    ensures Path(ss, acts) && ss[0] == s && ss[|ss| - 1] == Publish(s)
  {
    var w := Watermark(s.sessions, s.lastApplied);
    var s1 := s.(marks := s.marks[p := TableMark(s.sessions)]);
    var s2 := s.(marks := s.marks[p := Chosen(w)]);
    TableIsWatermark(s.sessions, s.lastApplied);
    assert s2.marks - {p} == s.marks;
    assert MarkSet(s2, p) == Publish(s);
    if s.sessions == map[] {
      assert s1.marks[p := Chosen(w)] == s2.marks;
      ss, acts := [s, s1, s2, Publish(s)], [ReadTable(p), LoadApplied(p), SetMark(p)];
    } else {
      ss, acts := [s, s2, Publish(s)], [ReadTable(p), SetMark(p)];
    }
  }

  lemma TableIsWatermark(sessions: map<nat, Session>, lastApplied: Ts)
    ensures if sessions == map[] then Watermark(sessions, lastApplied) == lastApplied + 1
            else TableMark(sessions) == Chosen(Watermark(sessions, lastApplied))
  {
    if sessions != map[] {
      var id :| id in sessions;
      var open := set d | d in sessions :: sessions[d].readTs;
      assert sessions[id].readTs in open;
    }
  }

  /** A `begin` with nothing in between its load and its registration. */
  lemma BeginInParts(s: System, b: nat) returns (ss: seq<System>, acts: seq<Action>)
    requires b !in s.loaded
    ensures Path(ss, acts) && ss[0] == s && ss[|ss| - 1] == Registered(s, s.lastApplied)
  {
    var s1 := s.(loaded := s.loaded[b := s.lastApplied]);
    assert s1.loaded - {b} == s.loaded;
    ss, acts := [s, s1, Registered(s, s.lastApplied)], [Load(b), Register(b)];
  }

  // ---------------------------------------------------------------- what lateness can lose

  lemma CommitAlone(s: System, id: nat, k: Key, v: Value)
    requires s.sessions.Keys == {id} && s.sessions[id].writes == map[k := Some(v)]
    requires Validates(s.lastCommit, s.sessions[id])
    ensures var s', ts := Commit(s, id), s.lastApplied + 1;
      && s'.sessions == map[] && s'.lastApplied == ts && ts + 1 in s'.published
      && s'.store == s.store[InternalKey(k, ts) := Some(v)]
      && k in s'.lastCommit && s'.lastCommit[k] == ts
      && s'.nextId == s.nextId && s'.loaded == s.loaded && s'.marks == s.marks
  {
    var s' := Applied(s, id);
    assert k in s.sessions[id].writes;
    assert Commit(s, id) == Publish(s');
    assert s'.sessions == map[];
    assert s'.store == s.store[InternalKey(k, s.lastApplied + 1) := Some(v)];
  }

  lemma OpenAlone(s: System, k: Key, v: Value) returns (s1: System, s2: System)
    requires s.sessions == map[] && (k in s.lastCommit ==> s.lastCommit[k] <= s.lastApplied)
    ensures Step(s, BeginTxn, s1) && Step(s1, Write(s.nextId + 1, k, Some(v)), s2)
    ensures s2.store == s.store && s2.lastApplied == s.lastApplied && s2.sessions.Keys == {s.nextId + 1}
    ensures s2.sessions[s.nextId + 1].writes == map[k := Some(v)]
    ensures Validates(s2.lastCommit, s2.sessions[s.nextId + 1])
    ensures s2.nextId == s.nextId + 1 && s2.loaded == s.loaded && s2.marks == s.marks
  {
    var id := s.nextId + 1;
    s1 := Begin(s);
    var x := AfterWrite(s1.store, s1.sessions[id], k, Some(v));
    s2 := s1.(sessions := s1.sessions[id := x]);
    assert x.readSet.Keys + x.writes.Keys == {k};
  }

  /** Opening a session on an idle system, writing `k` and committing. */
  lemma WriteAlone(s: System, k: Key, v: Value) returns (ss: seq<System>, acts: seq<Action>)
    requires s.sessions == map[] && (k in s.lastCommit ==> s.lastCommit[k] <= s.lastApplied)
    ensures |acts| == 3 && Path(ss, acts) && ss[0] == s
    ensures ss[3].sessions == map[] && ss[3].lastApplied == s.lastApplied + 1
    ensures ss[3].store == s.store[InternalKey(k, s.lastApplied + 1) := Some(v)]
    ensures k in ss[3].lastCommit && ss[3].lastCommit[k] == ss[3].lastApplied
    ensures ss[3].lastApplied + 1 in ss[3].published && ss[3].nextId == s.nextId + 1
    ensures ss[3].loaded == s.loaded && ss[3].marks == s.marks
  {
    var id := s.nextId + 1;
    var s1, s2 := OpenAlone(s, k, v);
    CommitAlone(s2, id, k, v);
    ss, acts := [s, s1, s2], [BeginTxn, Write(id, k, Some(v))];
    Extend(ss, acts, CommitTxn(id), Commit(s2, id));
    ss, acts := ss + [Commit(s2, id)], acts + [CommitTxn(id)];
  }

  lemma Extend(ss: seq<System>, acts: seq<Action>, a: Action, s': System)
    requires Path(ss, acts) && Step(ss[|ss| - 1], a, s')
    ensures Path(ss + [s'], acts + [a])
  {
    var all, both := ss + [s'], acts + [a];
    forall i {:trigger both[i]} | 0 <= i < |both| ensures Step(all[i], both[i], all[i + 1]) {
      if i < |acts| { assert acts[i] == both[i] && all[i] == ss[i] && all[i + 1] == ss[i + 1]; }
    }
  }

  lemma Join(ss: seq<System>, acts: seq<Action>, rs: seq<System>, more: seq<Action>)
    requires Path(ss, acts) && Path(rs, more) && ss[|ss| - 1] == rs[0]
    ensures Path(ss + rs[1..], acts + more)
  {
    var all, both := ss + rs[1..], acts + more;
    forall i {:trigger both[i]} | 0 <= i < |both| ensures Step(all[i], both[i], all[i + 1]) {
      if i < |acts| {
        assert acts[i] == both[i] && all[i] == ss[i] && all[i + 1] == ss[i + 1];
      } else {
        assert more[i - |acts|] == both[i] && all[i] == rs[i - |acts|] && all[i + 1] == rs[i - |acts| + 1];
      }
    }
  }

  /** The older of two versions is gone, and only the older one was visible at 1. */
  lemma OlderCollected(st: Store, k: Key, v: Value, w: Value)
    requires st == map[InternalKey(k, 1) := Some(v), InternalKey(k, 2) := Some(w)]
    ensures Collectable(st, {InternalKey(k, 1)}, 3)
    ensures ReadAt(st, k, 1) == Some(v) && ReadAt(st - {InternalKey(k, 1)}, k, 1) == None
  {
    assert Shadowed(st, InternalKey(k, 1), 3);
    var st' := st - {InternalKey(k, 1)};
    SeenUnique(st, k, 1, 1);
    assert SeenTs(st', k, 0) == 0;
    assert InternalKey(k, 1) !in st' && InternalKey(k, 0) !in st';
  }

  /** A `begin` that registers too late.  It loads index 1, another transaction commits index 2
      and publishes 3, a collector uses it, and the snapshot it then registers has lost its
      value. */
  lemma RegisterLateLoses(k: Key, v: Value, w: Value)
    returns (ss: seq<System>, acts: seq<Action>, loadedAt: nat, id: nat)
    ensures Path(ss, acts) && ss[0] == INITIAL && loadedAt < |ss|
    ensures var s := ss[|ss| - 1];
      && id in s.sessions && s.sessions[id].readTs == ss[loadedAt].lastApplied
      && ReadAt(ss[loadedAt].store, k, s.sessions[id].readTs) == Some(v)
      && ReadAt(s.store, k, s.sessions[id].readTs) == None
  {
    var ss1, acts1 := WriteAlone(INITIAL, k, v);
    var s4 := ss1[3].(loaded := ss1[3].loaded[0 := 1]);
    Extend(ss1, acts1, Load(0), s4);
    var ss2, acts2 := WriteAlone(s4, k, w);
    Join(ss1 + [s4], acts1 + [Load(0)], ss2, acts2);
    var s, dead := ss2[3], {InternalKey(k, 1)};
    OlderCollected(s.store, k, v, w);
    var s8 := s.(store := s.store - dead);
    ss, acts := ss1 + [s4] + ss2[1..], acts1 + [Load(0)] + acts2;
    Extend(ss, acts, Collect(3, dead), s8);
    Extend(ss + [s8], acts + [Collect(3, dead)], Register(0), RegisteredLate(s8, 0));
    ss, acts := ss + [s8] + [RegisteredLate(s8, 0)], acts + [Collect(3, dead)] + [Register(0)];
    loadedAt, id := 4, s8.nextId + 1;
    assert ss[4] == s4;
    SeenUnique(s4.store, k, 1, 1);
  }

  /** The write and the commit of a session that has just been opened at the applied index. */
  lemma CommitBeside(s: System, id: nat, k: Key, v: Value)
    requires id in s.sessions && s.sessions[id].readTs == s.lastApplied
    requires s.sessions[id].readSet.Keys <= {k} && s.sessions[id].writes == map[k := Some(v)]
    requires k in s.lastCommit ==> s.lastCommit[k] <= s.lastApplied
    ensures var s' := Committed(s, id);
      && s'.sessions == s.sessions - {id} && s'.lastApplied == s.lastApplied + 1 && s'.marks == s.marks
      && s'.store == s.store[InternalKey(k, s.lastApplied + 1) := Some(v)]
  {
    var x := s.sessions[id];
    assert k in x.writes && x.readSet.Keys + x.writes.Keys == {k};
    OneVersion(s.store, k, v, s.lastApplied + 1);
    AppliedFields(s, id, Txn(s.lastApplied + 1, x.observed, x.writes));
  }

  lemma OneVersion(st: Store, k: Key, v: Value, ts: Ts)
    ensures st + Versions(map[k := Some(v)], ts) == st[InternalKey(k, ts) := Some(v)]
  {
  }

  lemma OpenBeside(s: System, k: Key, v: Value) returns (ss: seq<System>, acts: seq<Action>)
    requires forall id :: id in s.sessions ==> id <= s.nextId
    ensures |ss| == 4 && Path(ss, acts) && ss[0] == s
    ensures var s', id := ss[3], s.nextId + 1;
      && s'.store == s.store && s'.lastApplied == s.lastApplied && s'.marks == s.marks && s'.lastCommit == s.lastCommit
      && id in s'.sessions && s'.sessions[id].readTs == s.lastApplied && s'.sessions[id].readSet.Keys <= {k}
      && s'.sessions[id].writes == map[k := Some(v)] && s'.sessions - {id} == s.sessions
  {
    var id := s.nextId + 1;
    var s1 := s.(loaded := s.loaded[0 := s.lastApplied]);
    var s2 := RegisteredLate(s1, 0);
    var x := AfterWrite(s2.store, s2.sessions[id], k, Some(v));
    var s3 := s2.(sessions := s2.sessions[id := x]);
    assert s3.sessions - {id} == s.sessions;
    ss, acts := [s, s1, s2, s3], [Load(0), Register(0), Write(id, k, Some(v))];
  }

  /** Another session opens, writes `k` and commits while the present ones stay open; nothing
      is published before the end of the path. */
  lemma WriteBeside(s: System, k: Key, v: Value) returns (ss: seq<System>, acts: seq<Action>)
    requires (forall id :: id in s.sessions ==> id <= s.nextId) &&
             (k in s.lastCommit ==> s.lastCommit[k] <= s.lastApplied)
    ensures Path(ss, acts) && ss[0] == s
    ensures var s' := ss[|ss| - 1];
      && s'.sessions == s.sessions && s'.lastApplied == s.lastApplied + 1 && s'.marks == s.marks
      && s'.store == s.store[InternalKey(k, s.lastApplied + 1) := Some(v)]
  {
    var id := s.nextId + 1;
    ss, acts := OpenBeside(s, k, v);
    CommitBeside(ss[3], id, k, v);
    var s' := Committed(ss[3], id);
    Extend(ss, acts, CommitQuietly(id), s');
    ss, acts := ss + [s'], acts + [CommitQuietly(id)];
  }

  /** A `publish_watermark` that is too late.  It finds no snapshot open, a session begins at
      index 1, another one commits index 2, and the call loads 2 and publishes 3; a collector
      uses it, and the open session has lost its value. */
  lemma PublishLateLoses(k: Key, v: Value, w: Value) returns (ss: seq<System>, acts: seq<Action>, openAt: nat, id: nat)
    ensures Path(ss, acts) && ss[0] == INITIAL && openAt < |ss|
    ensures var s, t := ss[openAt], ss[|ss| - 1];
      && id in s.sessions && id in t.sessions && s.sessions[id] == t.sessions[id]
      && ReadAt(s.store, k, s.sessions[id].readTs) == Some(v)
      && ReadAt(t.store, k, t.sessions[id].readTs) == None
  {
    var ss1, acts1 := WriteAlone(INITIAL, k, v);
    var s4 := ss1[3].(marks := map[0 := Empty]);
    Extend(ss1, acts1, ReadTable(0), s4);
    var s5 := Begin(s4);
    id := s4.nextId + 1;
    Extend(ss1 + [s4], acts1 + [ReadTable(0)], BeginTxn, s5);
    var ss2, acts2 := WriteBeside(s5, k, w);
    ss, acts := ss1 + [s4] + [s5], acts1 + [ReadTable(0)] + [BeginTxn];
    Join(ss, acts, ss2, acts2);
    var tail, tailActs := LateTail(ss2[|ss2| - 1], k, v, w);
    Join(ss + ss2[1..], acts + acts2, tail, tailActs);
    ss, acts, openAt := ss + ss2[1..] + tail[1..], acts + acts2 + tailActs, 5;
    assert ss[5] == s5;
    SeenUnique(s5.store, k, 1, 1);
  }

  /** The call that found the table empty loads 2, publishes 3, and the collector uses it. */
  lemma LateTail(s: System, k: Key, v: Value, w: Value) returns (ss: seq<System>, acts: seq<Action>)
    requires s.marks == map[0 := Empty] && s.lastApplied == 2
    requires s.store == map[InternalKey(k, 1) := Some(v), InternalKey(k, 2) := Some(w)]
    ensures Path(ss, acts) && ss[0] == s && ss != [s]
    ensures ss[|ss| - 1].sessions == s.sessions && ReadAt(ss[|ss| - 1].store, k, 1) == None
  {
    var dead := {InternalKey(k, 1)};
    OlderCollected(s.store, k, v, w);
    var s1 := s.(marks := s.marks[0 := Chosen(3)]);
    var s2 := MarkSet(s1, 0);
    var s3 := s2.(store := s2.store - dead);
    ss, acts := [s, s1, s2, s3], [LoadApplied(0), SetMark(0), Collect(3, dead)];
  }
}
