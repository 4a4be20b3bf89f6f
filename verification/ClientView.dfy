/** Client transactions (src/engine.rs) as their clients see them: laws about the calls a client
    made and the answers it got, over every run of `Occ`. */
module ClientView {
  import opened Keys
  import opened Mvcc
  import opened Occ
  import ClientService

  // ---------------------------------------------------------------- what a session has been asked

  /** The last write of `k` among the first `n` actions that session `id` made. */
  function LastOp(acts: seq<Action>, n: nat, id: nat, k: Key): Option<Option<Value>>
    requires n <= |acts|
  {
    if n == 0 then None
    else if acts[n - 1].Write? && acts[n - 1].id == id && acts[n - 1].key == k then Some(acts[n - 1].op)
    else LastOp(acts, n - 1, id, k)
  }

  predicate Touches(a: Action, id: nat, k: Key) {
    (a.Get? || a.Write?) && a.id == id && a.key == k
  }

  /** The session has read or written `k` by then. */
  predicate Touched(acts: seq<Action>, n: nat, id: nat, k: Key)
    requires n <= |acts|
  {
    exists i :: 0 <= i < n && Touches(acts[i], id, k)
  }

  function Written(ws: Writes, k: Key): Option<Option<Value>> {
    if k in ws then Some(ws[k]) else None
  }

  lemma SessionStep(s: System, a: Action, s': System, id: nat, k: Key)
    requires Step(s, a, s') && id in s.sessions && id in s'.sessions && id <= s.nextId
    requires k in s.sessions[id].writes ==> k in s.sessions[id].readSet
    ensures var x, x' := s.sessions[id], s'.sessions[id];
      && (k in x'.readSet <==> k in x.readSet || Touches(a, id, k))
      && Written(x'.writes, k) == (if a.Write? && Touches(a, id, k) then Some(a.op) else Written(x.writes, k))
  {
  }

  /** A session that was not open before the step has just been opened, with a new number. */
  lemma SessionOpens(s: System, a: Action, s': System, id: nat)
    requires Step(s, a, s') && id !in s.sessions && id in s'.sessions
    ensures id == s.nextId + 1 && s'.sessions[id].readSet == map[] && s'.sessions[id].writes == map[]
    ensures a.BeginTxn? || a.Register?
    ensures s'.sessions[id].readTs == if a.BeginTxn? then s.lastApplied else s.loaded[a.b]
  {
  }

  /** Nobody speaks for a session before it is opened. */
  lemma {:induction false} NotYetAsked(ss: seq<System>, acts: seq<Action>, n: nat, id: nat, k: Key)
    requires Run(ss, acts) && n < |ss| && id > ss[n].nextId
    ensures !Touched(acts, n, id, k) && LastOp(acts, n, id, k) == None
  {
    if n > 0 {
      IdsGrow(ss, acts, n - 1, n);
      NotYetAsked(ss, acts, n - 1, id, k);
      RunTimely(ss, acts, n - 1);
      assert Step(ss[n - 1], acts[n - 1], ss[n]);
    }
  }

  /** A session's read-set holds exactly the keys it got or wrote, and its write-set exactly the
      last write of each. */
  lemma {:induction false} SessionIsItsCalls(ss: seq<System>, acts: seq<Action>, n: nat, id: nat, k: Key)
    requires Run(ss, acts) && n < |ss| && id in ss[n].sessions
    ensures k in ss[n].sessions[id].readSet <==> Touched(acts, n, id, k)
    ensures Written(ss[n].sessions[id].writes, k) == LastOp(acts, n, id, k)
    ensures k in ss[n].sessions[id].writes ==> k in ss[n].sessions[id].readSet
  {
    if n > 0 {
      var s, a := ss[n - 1], acts[n - 1];
      assert Step(s, a, ss[n]);
      RunTimely(ss, acts, n - 1);
      if id in s.sessions {
        SessionIsItsCalls(ss, acts, n - 1, id, k);
        SessionStep(s, a, ss[n], id, k);
      } else {
        SessionOpens(s, a, ss[n], id);
        NotYetAsked(ss, acts, n - 1, id, k);
      }
    }
  }

  // ---------------------------------------------------------------- the history

  predicate Commits(a: Action, id: nat) {
    a == CommitTxn(id) || a == CommitQuietly(id)
  }

  ghost predicate CommitAt(ss: seq<System>, acts: seq<Action>, j: nat, id: nat) {
    Run(ss, acts) && j < |acts| && Commits(acts[j], id)
  }

  lemma {:induction false} HistoryGrows(ss: seq<System>, acts: seq<Action>, i: nat, j: nat)
    requires Run(ss, acts) && i <= j < |ss|
    ensures ss[i].history <= ss[j].history && ss[i].lastApplied <= ss[j].lastApplied
    decreases j - i
  {
    if i < j {
      HistoryGrows(ss, acts, i, j - 1);
      assert Step(ss[j - 1], acts[j - 1], ss[j]);
    }
  }

  /** What the log had applied at a time is the serial state of that time ever after. */
  lemma {:induction false} PastIsFixed(ss: seq<System>, acts: seq<Action>, i: nat, j: nat)
    requires Run(ss, acts) && i <= j < |ss|
    ensures SerialAt(ss[j].history, ss[i].lastApplied) == Serial(ss[i].history)
    decreases j - i
  {
    if i == j {
      RunTimely(ss, acts, i);
      SerialAtEnd(ss[i].history, ss[i].lastApplied);
    } else {
      PastIsFixed(ss, acts, i, j - 1);
      HistoryGrows(ss, acts, i, j - 1);
      assert Step(ss[j - 1], acts[j - 1], ss[j]);
      LaterEntry(ss[j - 1], acts[j - 1], ss[j], ss[i].lastApplied);
    }
  }

  lemma LaterEntry(s: System, a: Action, s': System, ts: Ts)
    requires Step(s, a, s') && ts <= s.lastApplied
    ensures SerialAt(s'.history, ts) == SerialAt(s.history, ts)
  {
    if s'.history != s.history {
      var t := s'.history[|s.history|];
      assert s'.history == s.history + [t];
      SerialAtSnoc(s.history, t, ts);
    }
  }

  // ---------------------------------------------------------------- answers

  /** What the `get` at step `i` answered. */
  function Reply(ss: seq<System>, acts: seq<Action>, i: nat): Option<Value>
    requires i < |acts| && i < |ss| && acts[i].Get? && acts[i].id in ss[i].sessions
  {
    Answer(ss[i].store, ss[i].sessions[acts[i].id], acts[i].key)
  }

  ghost predicate GetAt(ss: seq<System>, acts: seq<Action>, i: nat, id: nat, k: Key) {
    Run(ss, acts) && i < |acts| && acts[i] == Get(id, k)
  }

  lemma GetIsOpen(ss: seq<System>, acts: seq<Action>, i: nat, id: nat, k: Key)
    requires GetAt(ss, acts, i, id, k)
    ensures id in ss[i].sessions && id <= ss[i].nextId
  {
    assert Step(ss[i], acts[i], ss[i + 1]);
    RunTimely(ss, acts, i);
  }

  /** A session reads its own last write. */
  lemma OwnWriteAnswered(ss: seq<System>, acts: seq<Action>, i: nat, id: nat, k: Key)
    requires GetAt(ss, acts, i, id, k) && LastOp(acts, i, id, k).Some?
    ensures id in ss[i].sessions && Reply(ss, acts, i) == LastOp(acts, i, id, k).value
  {
    GetIsOpen(ss, acts, i, id, k);
    SessionIsItsCalls(ss, acts, i, id, k);
  }

  /** A key the session has not written is answered from the serial state of the snapshot, even
      as that state is known at a later step at which the session is still open. */
  lemma AnswerFromSnapshot(ss: seq<System>, acts: seq<Action>, i: nat, j: nat, id: nat, k: Key)
    requires GetAt(ss, acts, i, id, k) && LastOp(acts, i, id, k) == None
    requires i <= j < |ss| && id in ss[j].sessions
    ensures id in ss[i].sessions && ss[i].sessions[id].readTs == ss[j].sessions[id].readTs
    ensures Reply(ss, acts, i) == At(SerialAt(ss[j].history, ss[j].sessions[id].readTs), k)
  {
    GetIsOpen(ss, acts, i, id, k);
    SessionIsItsCalls(ss, acts, i, id, k);
    SnapshotNeverMoves(ss, acts, i, j, id, k);
    SnapshotReads(ss, acts, j, id, k);
  }

  lemma SnapshotReads(ss: seq<System>, acts: seq<Action>, j: nat, id: nat, k: Key)
    requires Run(ss, acts) && j < |ss| && id in ss[j].sessions
    ensures ReadAt(ss[j].store, k, ss[j].sessions[id].readTs) ==
      At(SerialAt(ss[j].history, ss[j].sessions[id].readTs), k)
  {
    RunKeepsInv(ss, acts, j);
  }

  /** Serializability on the answers: if a transaction enters the history, as entry `m`, then
      every key it got without having written it was answered with the value the first `m`
      entries, run one after the other, give that key. */
  lemma GetsAreSerial(ss: seq<System>, acts: seq<Action>, i: nat, j: nat, n: nat, id: nat, k: Key)
    requires GetAt(ss, acts, i, id, k) && LastOp(acts, i, id, k) == None
    requires i < j && CommitAt(ss, acts, j, id) && ss[j + 1].history != ss[j].history && j < n < |ss|
    ensures id in ss[i].sessions && |ss[j].history| < |ss[n].history|
    ensures Reply(ss, acts, i) == At(Serial(ss[n].history[..|ss[j].history|]), k)
  {
    EnteredUntouched(ss, acts, i, j, id, k);
    AnswerFromSnapshot(ss, acts, i, j, id, k);
    EntryIsKept(ss, acts, j, n);
  }

  lemma EntryIsKept(ss: seq<System>, acts: seq<Action>, j: nat, n: nat)
    requires Run(ss, acts) && j < n < |ss| && ss[j + 1].history != ss[j].history
    ensures |ss[j].history| < |ss[n].history| && ss[n].history[..|ss[j].history|] == ss[j].history
  {
    HistoryGrows(ss, acts, j, j + 1);
    HistoryGrows(ss, acts, j + 1, n);
  }

  lemma EnteredUntouched(ss: seq<System>, acts: seq<Action>, i: nat, j: nat, id: nat, k: Key)
    requires CommitAt(ss, acts, j, id) && ss[j + 1].history != ss[j].history && i < j && Touches(acts[i], id, k)
    ensures id in ss[j].sessions
    ensures At(Serial(ss[j].history), k) == At(SerialAt(ss[j].history, ss[j].sessions[id].readTs), k)
  {
    EnteredValid(ss, acts, j, id);
    RunNotes(ss, acts, j);
    SessionIsItsCalls(ss, acts, j, id, k);
    ValidUntouched(ss[j].lastCommit, ss[j].history, ss[j].sessions[id], k);
  }

  lemma EnteredValid(ss: seq<System>, acts: seq<Action>, j: nat, id: nat)
    requires CommitAt(ss, acts, j, id) && ss[j + 1].history != ss[j].history
    ensures id in ss[j].sessions && Validates(ss[j].lastCommit, ss[j].sessions[id])
  {
    assert Step(ss[j], acts[j], ss[j + 1]);
  }

  lemma ValidUntouched(lastCommit: map<Key, Ts>, h: seq<Txn>, x: Session, k: Key)
    requires NotesExact(lastCommit, h) && Validates(lastCommit, x) && k in x.readSet
    ensures At(Serial(h), k) == At(SerialAt(h, x.readTs), k)
  {
    ValidatesExactly(lastCommit, h, x);
    assert k in x.readSet.Keys + x.writes.Keys;
    Untouched(h, x.readTs, k);
  }

  lemma RunNotes(ss: seq<System>, acts: seq<Action>, n: nat)
    requires Run(ss, acts) && n < |ss|
    ensures NotesExact(ss[n].lastCommit, ss[n].history)
  {
    RunKeepsInv(ss, acts, n);
  }

  // ---------------------------------------------------------------- commits

  /** Some key the session got or wrote was written by a transaction that committed after the
      session's snapshot. */
  ghost predicate Overtaken(ss: seq<System>, acts: seq<Action>, j: nat, id: nat)
    requires j < |ss| && j <= |acts| && id in ss[j].sessions
  {
    exists p, k :: 0 <= p < |ss[j].history| && k in ss[j].history[p].writes &&
      ss[j].history[p].ts > ss[j].sessions[id].readTs && Touched(acts, j, id, k)
  }

  lemma ValidatesByCalls(ss: seq<System>, acts: seq<Action>, j: nat, id: nat)
    requires CommitAt(ss, acts, j, id)
    ensures id in ss[j].sessions
    ensures Validates(ss[j].lastCommit, ss[j].sessions[id]) <==> !Overtaken(ss, acts, j, id)
  {
    assert Step(ss[j], acts[j], ss[j + 1]);
    RunNotes(ss, acts, j);
    var x := ss[j].sessions[id];
    ValidatesExactly(ss[j].lastCommit, ss[j].history, x);
    forall k ensures k in x.readSet.Keys + x.writes.Keys <==> Touched(acts, j, id, k) {
      SessionIsItsCalls(ss, acts, j, id, k);
    }
  }

  /** First committer wins, by the calls: a commit with writes answers Conflict and changes
      nothing exactly when a key the session got or wrote was overtaken; otherwise it enters the
      history with the last write of each key it wrote. */
  lemma CommitByCalls(ss: seq<System>, acts: seq<Action>, j: nat, id: nat, q: Key, taken: bool)
    requires CommitAt(ss, acts, j, id) && LastOp(acts, j, id, q).Some?
    ensures id in ss[j].sessions
    ensures ClientService.CommitReply(ss[j], id, taken) == ClientService.Err(ClientService.Conflict) <==>
      Overtaken(ss, acts, j, id)
    ensures if Overtaken(ss, acts, j, id)
      then ss[j + 1].history == ss[j].history && ss[j + 1].store == ss[j].store
      else
        && |ss[j + 1].history| == |ss[j].history| + 1 && ss[j].history < ss[j + 1].history
        && ss[j + 1].history[|ss[j].history|].ts == ss[j].lastApplied + 1
        && forall k :: Written(ss[j + 1].history[|ss[j].history|].writes, k) == LastOp(acts, j, id, k)
  {
    assert Step(ss[j], acts[j], ss[j + 1]);
    ValidatesByCalls(ss, acts, j, id);
    SessionIsItsCalls(ss, acts, j, id, q);
    forall k ensures Written(ss[j].sessions[id].writes, k) == LastOp(acts, j, id, k) {
      SessionIsItsCalls(ss, acts, j, id, k);
    }
  }

  /** In particular a `get` of a key that another session then commits dooms the session's own
      writes. */
  lemma StaleGetConflicts(ss: seq<System>, acts: seq<Action>, i: nat, j: nat, id: nat, k: Key, p: nat, q: Key,
                          taken: bool)
    requires GetAt(ss, acts, i, id, k) && i < j && CommitAt(ss, acts, j, id) && LastOp(acts, j, id, q).Some?
    requires p < |ss[j].history| && k in ss[j].history[p].writes
    requires id in ss[i].sessions && ss[j].history[p].ts > ss[i].sessions[id].readTs
    ensures id in ss[j].sessions
    ensures ClientService.CommitReply(ss[j], id, taken) == ClientService.Err(ClientService.Conflict)
    ensures ss[j + 1].history == ss[j].history && ss[j + 1].store == ss[j].store
  {
    CommitByCalls(ss, acts, j, id, q, taken);
    GetOvertaken(ss, acts, i, j, id, k, p);
  }

  lemma GetOvertaken(ss: seq<System>, acts: seq<Action>, i: nat, j: nat, id: nat, k: Key, p: nat)
    requires GetAt(ss, acts, i, id, k) && i < j < |ss| && id in ss[j].sessions && id in ss[i].sessions
    requires p < |ss[j].history| && k in ss[j].history[p].writes
    requires ss[j].history[p].ts > ss[i].sessions[id].readTs
    ensures Overtaken(ss, acts, j, id)
  {
    GetIsOpen(ss, acts, i, id, k);
    SnapshotNeverMoves(ss, acts, i, j, id, k);
    assert Touches(acts[i], id, k);
    assert Touched(acts, j, id, k);
  }

  // ---------------------------------------------------------------- how new a snapshot is

  /** A session opened on the applied index of step `l` answers from the serial state of that step. */
  lemma AnswersFrom(ss: seq<System>, acts: seq<Action>, l: nat, r: nat, i: nat, id: nat, k: Key)
    requires GetAt(ss, acts, i, id, k) && LastOp(acts, i, id, k) == None && l < r <= i
    requires id in ss[r].sessions && id <= ss[r].nextId && ss[r].sessions[id].readTs == ss[l].lastApplied
    ensures id in ss[i].sessions && Reply(ss, acts, i) == At(Serial(ss[l].history), k)
  {
    GetIsOpen(ss, acts, i, id, k);
    AnswerFromSnapshot(ss, acts, i, i, id, k);
    SnapshotNeverMoves(ss, acts, r, i, id, k);
    PastIsFixed(ss, acts, l, i);
  }

  lemma BeginOpens(ss: seq<System>, acts: seq<Action>, b: nat)
    requires Run(ss, acts) && b < |acts| && acts[b] == BeginTxn
    ensures var id := ss[b].nextId + 1;
      && id in ss[b + 1].sessions && id <= ss[b + 1].nextId && ss[b + 1].sessions[id].readTs == ss[b].lastApplied
  {
  }

  /** A transaction sees everything that was committed when it began. */
  lemma SnapshotIsCurrent(ss: seq<System>, acts: seq<Action>, b: nat, i: nat, k: Key)
    requires Run(ss, acts) && b < |acts| && acts[b] == BeginTxn
    requires b < i && GetAt(ss, acts, i, ss[b].nextId + 1, k) && LastOp(acts, i, ss[b].nextId + 1, k) == None
    ensures ss[b].nextId + 1 in ss[i].sessions && Reply(ss, acts, i) == At(Serial(ss[b].history), k)
  {
    BeginOpens(ss, acts, b);
    AnswersFrom(ss, acts, b, b + 1, i, ss[b].nextId + 1, k);
  }

  lemma {:induction false} LoadedStays(ss: seq<System>, acts: seq<Action>, l: nat, r: nat, b: nat)
    requires Run(ss, acts) && l < r <= |acts| && acts[l] == Load(b)
    requires forall i :: l < i < r ==> acts[i] != Load(b) && acts[i] != Register(b)
    ensures b in ss[r].loaded && ss[r].loaded[b] == ss[l].lastApplied
    decreases r - l
  {
    assert Step(ss[r - 1], acts[r - 1], ss[r]);
    if l < r - 1 { LoadedStays(ss, acts, l, r - 1, b); }
  }

  lemma RegisterOpens(ss: seq<System>, acts: seq<Action>, l: nat, r: nat, b: nat)
    requires Run(ss, acts) && l < r < |acts| && acts[l] == Load(b) && acts[r] == Register(b)
    requires forall p :: l < p < r ==> acts[p] != Load(b) && acts[p] != Register(b)
    ensures var id := ss[r].nextId + 1;
      && id in ss[r + 1].sessions && id <= ss[r + 1].nextId && ss[r + 1].sessions[id].readTs == ss[l].lastApplied
  {
    LoadedStays(ss, acts, l, r, b);
    assert Step(ss[r], acts[r], ss[r + 1]);
  }

  /** The same of a `begin` that other calls came in between of: it sees everything that was
      committed when it loaded the applied index. */
  lemma LateSnapshotIsCurrent(ss: seq<System>, acts: seq<Action>, l: nat, r: nat, b: nat, i: nat, k: Key)
    requires Run(ss, acts) && l < r < |acts| && acts[l] == Load(b) && acts[r] == Register(b)
    requires forall p :: l < p < r ==> acts[p] != Load(b) && acts[p] != Register(b)
    requires r < i && GetAt(ss, acts, i, ss[r].nextId + 1, k) && LastOp(acts, i, ss[r].nextId + 1, k) == None
    ensures ss[r].nextId + 1 in ss[i].sessions && Reply(ss, acts, i) == At(Serial(ss[l].history), k)
  {
    RegisterOpens(ss, acts, l, r, b);
    AnswersFrom(ss, acts, l, r + 1, i, ss[r].nextId + 1, k);
  }
}
