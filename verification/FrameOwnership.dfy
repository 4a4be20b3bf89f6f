/** Who owns a buffer-pool frame while threads hit, miss, lose publish races, allocate and
    evict.  Every lock-protected section is one step, so between allocating a frame, reading
    into it and publishing it anything else may happen. */
module FrameOwnership {
  import opened Keys

  type PageId = nat
  type Thread = nat

  datatype Frame = Frame(page: Option<PageId>, pins: nat)

  /** What a thread is in the middle of. */
  datatype Task =
    | Idle
    | Wanting(page: PageId, isNew: bool)                  // missed, before the free list
    | Evicting(page: PageId, isNew: bool)                 // free list exhausted
    | Claimed(page: PageId, frame: nat, isNew: bool)      // frame in hand, empty
    | Loaded(page: PageId, frame: nat)                    // read from disk, not published
    | Lost(page: PageId, frame: nat)                      // somebody else published first
    | Returning(frame: nat)                               // reset, not yet on the free list

  datatype Guard = Guard(page: PageId, frame: nat)

  /** `unborn`: ids handed out by `new_page` calls that have not returned. */
  datatype State = State(
    frames: seq<Frame>, table: map<PageId, nat>, free: seq<nat>,
    tasks: map<Thread, Task>, guards: multiset<Guard>, nextPage: PageId, unborn: set<PageId>)

  function TaskOf(s: State, t: Thread): Task { if t in s.tasks then s.tasks[t] else Idle }

  predicate Usable(frames: seq<Frame>, f: nat) { f < |frames| && frames[f].pins == 0 && frames[f].page == None }

  // ---------------------------------------------------------------- steps

  datatype Action =
    | Fetch(t: Thread, page: PageId)
    | NewPage(t: Thread)
    | TakeFree(t: Thread, skipped: nat)
    | Evict(t: Thread, victim: nat)
    | Exhausted(t: Thread)
    | Read(t: Thread)
    | Publish(t: Thread)
    | ResetLost(t: Thread)
    | PushFree(t: Thread)
    | Unpin(t: Thread, guard: Guard)

  function With(s: State, t: Thread, task: Task): State { s.(tasks := s.tasks[t := task]) }

  /** The locked lookup of `fetch_page`: pin a hit, drop a stale entry, or go on to a miss. */
  function Looked(s: State, t: Thread, p: PageId): State {
    if p !in s.table then With(s, t, Wanting(p, false))
    else if s.table[p] < |s.frames| && s.frames[s.table[p]].page == Some(p) then
      var f := s.table[p];
      s.(frames := s.frames[f := s.frames[f].(pins := s.frames[f].pins + 1)],
         guards := s.guards + multiset{Guard(p, f)})
    else s.(table := s.table - {p})
  }

  function Evicted(s: State, t: Thread, task: Task, v: nat): State
    requires v < |s.frames| && task.Evicting?
  {
    var p := s.frames[v].page;
    With(s.(frames := s.frames[v := Frame(None, 1)], table := if p.Some? then s.table - {p.value} else s.table),
         t, Claimed(task.page, v, task.isNew))
  }

  function Published(s: State, t: Thread, p: PageId, f: nat): State {
    With(s.(table := s.table[p := f], guards := s.guards + multiset{Guard(p, f)}), t, Idle)
  }

  ghost predicate Step(s: State, a: Action, s': State) {
    var task := TaskOf(s, a.t);
    match a
    case Fetch(t, p) => task == Idle && p < s.nextPage && p !in s.unborn && s' == Looked(s, t, p)
    case NewPage(t) =>
      && task == Idle
      && s' == With(s, t, Wanting(s.nextPage, true)).(nextPage := s.nextPage + 1, unborn := s.unborn + {s.nextPage})
    case TakeFree(t, n) =>
      && task.Wanting? && n <= |s.free| && (forall j :: 0 <= j < n ==> !Usable(s.frames, s.free[j]))
      && if n == |s.free| then s' == With(s.(free := []), t, Evicting(task.page, task.isNew))
         else Usable(s.frames, s.free[n]) &&
              s' == With(s.(free := s.free[n + 1..], frames := s.frames[s.free[n] := Frame(None, 1)]), t,
                         Claimed(task.page, s.free[n], task.isNew))
    case Evict(t, v) => task.Evicting? && v < |s.frames| && s.frames[v].pins == 0 && s' == Evicted(s, t, task, v)
    case Exhausted(t) => task.Evicting? && s' == With(s, t, Idle)
    case Read(t) =>
      task.Claimed? && !task.isNew && task.frame < |s.frames| &&
      s' == With(s.(frames := s.frames[task.frame := Frame(Some(task.page), 1)]), t, Loaded(task.page, task.frame))
    case Publish(t) =>
      if task.Loaded?
      then s' == if task.page in s.table then With(s, t, Lost(task.page, task.frame))
                 else Published(s, t, task.page, task.frame)
      else task.Claimed? && task.isNew && task.frame < |s.frames| &&
           s' == Published(s.(frames := s.frames[task.frame := Frame(Some(task.page), 1)],
                              unborn := s.unborn - {task.page}), t, task.page, task.frame)
    case ResetLost(t) =>
      task.Lost? && task.frame < |s.frames| &&
      s' == With(s.(frames := s.frames[task.frame := Frame(None, 0)]), t, Returning(task.frame))
    case PushFree(t) => task.Returning? && s' == With(s.(free := s.free + [task.frame]), t, Idle)
    case Unpin(t, g) => g in s.guards && s' == Unpinned(s, g)
  }

  /** `unpin` looks the page up again; it refuses when the table does not lead to it. */
  function Unpinned(s: State, g: Guard): State {
    if && g.page in s.table && s.table[g.page] < |s.frames|
       && s.frames[s.table[g.page]].page == Some(g.page) && s.frames[s.table[g.page]].pins > 0
    then
      var f := s.table[g.page];
      s.(frames := s.frames[f := s.frames[f].(pins := s.frames[f].pins - 1)], guards := s.guards - multiset{g})
    else s
  }

  ghost predicate Initial(s: State) {
    && (forall f :: 0 <= f < |s.frames| ==> s.frames[f] == Frame(None, 0))
    && s.table == map[] && s.tasks == map[] && s.guards == multiset{} && s.unborn == {}
  }

  ghost predicate Run(ss: seq<State>, acts: seq<Action>) {
    && |ss| == |acts| + 1 && Initial(ss[0])
    && forall i {:trigger acts[i]} :: 0 <= i < |acts| ==> Step(ss[i], acts[i], ss[i + 1])
  }

  // ---------------------------------------------------------------- invariant

  /** The frame a thread holds privately. */
  function Owns(task: Task): Option<nat> {
    if task.Claimed? || task.Loaded? || task.Lost? then Some(task.frame) else None
  }

  ghost predicate TableOk(frames: seq<Frame>, table: map<PageId, nat>) {
    forall p :: p in table ==> table[p] < |frames| && frames[table[p]].page == Some(p)
  }

  ghost predicate TaskOk(frames: seq<Frame>, table: map<PageId, nat>, task: Task) {
    && (task.Claimed? ==> task.frame < |frames| && frames[task.frame] == Frame(None, 1))
    && (task.Loaded? || task.Lost? ==> task.frame < |frames| && frames[task.frame] == Frame(Some(task.page), 1))
    && (task.Loaded? || task.Lost? ==> !(task.page in table && table[task.page] == task.frame))
  }

  ghost predicate TasksOk(s: State) {
    && (forall t :: t in s.tasks ==> TaskOk(s.frames, s.table, s.tasks[t]))
    && (forall t, u :: t in s.tasks && u in s.tasks && t != u && Owns(s.tasks[t]).Some? ==>
          Owns(s.tasks[t]) != Owns(s.tasks[u]))
  }

  ghost predicate Owned(tasks: map<Thread, Task>, f: nat) {
    exists t :: t in tasks && Owns(tasks[t]) == Some(f)
  }

  /** Nobody's private frame: mapped with one pin per guard, or empty and unpinned. */
  ghost predicate FrameOk(s: State, f: nat)
    requires f < |s.frames|
  {
    match s.frames[f].page
    case None => s.frames[f].pins == 0
    case Some(p) => p in s.table && s.table[p] == f && s.frames[f].pins == s.guards[Guard(p, f)]
  }

  ghost predicate FramesOk(s: State) {
    forall f :: 0 <= f < |s.frames| ==> Owned(s.tasks, f) || FrameOk(s, f)
  }

  ghost predicate GuardsOk(s: State) {
    forall g :: g in s.guards ==> g.page in s.table && s.table[g.page] == g.frame
  }

  predicate Births(task: Task, p: PageId) {
    (task.Wanting? || task.Evicting? || task.Claimed?) && task.isNew && task.page == p
  }

  ghost predicate UnbornOk(s: State) {
    && (forall p :: p in s.table ==> p < s.nextPage && p !in s.unborn)
    && (forall p :: p in s.unborn ==> p < s.nextPage)
    && (forall t, p :: t in s.tasks && Births(s.tasks[t], p) ==> p in s.unborn)
    && (forall t, u, p :: t in s.tasks && u in s.tasks && Births(s.tasks[t], p) && Births(s.tasks[u], p) ==> t == u)
    && (forall t ::
          t in s.tasks && !s.tasks[t].Idle? && !s.tasks[t].Returning? && !Births(s.tasks[t], s.tasks[t].page) ==>
          s.tasks[t].page < s.nextPage && s.tasks[t].page !in s.unborn)
  }

  ghost predicate Inv(s: State) {
    TableOk(s.frames, s.table) && TasksOk(s) && FramesOk(s) && GuardsOk(s) && UnbornOk(s)
  }

  // ---------------------------------------------------------------- facts

  ghost predicate HeldOk(s: State) {
    TableOk(s.frames, s.table) && TasksOk(s) && FramesOk(s) && GuardsOk(s)
  }

  /** A mapped frame is nobody's private frame. */
  lemma MappedNotOwned(s: State, p: PageId)
    requires HeldOk(s) && p in s.table
    ensures !Owned(s.tasks, s.table[p]) && FrameOk(s, s.table[p])
  {
    forall t | t in s.tasks ensures Owns(s.tasks[t]) != Some(s.table[p]) {
      assert TaskOk(s.frames, s.table, s.tasks[t]);
    }
  }

  /** An unpinned frame is nobody's private frame. */
  lemma UnpinnedNotOwned(s: State, f: nat)
    requires HeldOk(s) && f < |s.frames| && s.frames[f].pins == 0
    ensures !Owned(s.tasks, f) && FrameOk(s, f)
  {
    forall t | t in s.tasks ensures Owns(s.tasks[t]) != Some(f) {
      assert TaskOk(s.frames, s.table, s.tasks[t]);
    }
  }

  // ---------------------------------------------------------------- steps around one frame

  /** Thread t acts on frame f: everything about other threads and frames stands. */
  ghost predicate Local(s: State, s': State, t: Thread, f: nat) {
    && f < |s.frames| && |s'.frames| == |s.frames| &&
       (forall g :: 0 <= g < |s.frames| && g != f ==> s'.frames[g] == s.frames[g])
    && (forall u :: u != t ==> (u in s'.tasks <==> u in s.tasks) && (u in s.tasks ==> s'.tasks[u] == s.tasks[u]))
    && (Owns(TaskOf(s, t)) == None || Owns(TaskOf(s, t)) == Some(f)) &&
       (Owns(TaskOf(s', t)) == None || Owns(TaskOf(s', t)) == Some(f))
    && (forall u :: u in s.tasks && u != t ==> Owns(s.tasks[u]) != Some(f))
    && (forall p :: p in s.table && s.table[p] != f ==> p in s'.table && s'.table[p] == s.table[p])
    && (forall p :: p in s'.table && s'.table[p] != f ==> p in s.table && s'.table[p] == s.table[p])
    && (forall g: Guard :: g.frame != f ==> s'.guards[g] == s.guards[g])
  }

  /** What then has to hold of t and f themselves. */
  ghost predicate LocalOk(s': State, t: Thread, f: nat)
    requires f < |s'.frames|
  {
    && TaskOk(s'.frames, s'.table, TaskOf(s', t))
    && (Owns(TaskOf(s', t)) == Some(f) || FrameOk(s', f))
    && (forall p :: p in s'.table && s'.table[p] == f ==> s'.frames[f].page == Some(p))
    && (forall g :: g in s'.guards && g.frame == f ==> g.page in s'.table && s'.table[g.page] == f)
  }

  lemma LocalTasks(s: State, s': State, t: Thread, f: nat)
    requires HeldOk(s) && Local(s, s', t, f) && LocalOk(s', t, f)
    ensures TasksOk(s')
  {
    forall u | u in s'.tasks ensures TaskOk(s'.frames, s'.table, s'.tasks[u]) {
      if u != t { assert TaskOk(s.frames, s.table, s.tasks[u]); }
    }
    forall u, v | u in s'.tasks && v in s'.tasks && u != v && Owns(s'.tasks[u]).Some?
      ensures Owns(s'.tasks[u]) != Owns(s'.tasks[v])
    {
      if u != t && v != t { assert Owns(s.tasks[u]) != Owns(s.tasks[v]); }
    }
  }

  lemma LocalFrames(s: State, s': State, t: Thread, f: nat)
    requires HeldOk(s) && Local(s, s', t, f) && LocalOk(s', t, f)
    ensures FramesOk(s')
  {
    forall g | 0 <= g < |s'.frames| ensures Owned(s'.tasks, g) || FrameOk(s', g) {
      if g != f {
        if Owned(s.tasks, g) {
          var u :| u in s.tasks && Owns(s.tasks[u]) == Some(g);
          assert u in s'.tasks && Owns(s'.tasks[u]) == Some(g);
        } else {
          assert FrameOk(s, g);
        }
      }
    }
  }

  lemma LocalKeeps(s: State, s': State, t: Thread, f: nat)
    requires HeldOk(s) && Local(s, s', t, f) && LocalOk(s', t, f)
    ensures HeldOk(s')
  {
    LocalTasks(s, s', t, f);
    LocalFrames(s, s', t, f);
    forall g | g in s'.guards ensures g.page in s'.table && s'.table[g.page] == g.frame {
      if g.frame != f { assert g in s.guards; }
    }
  }

  /** Steps that only move thread t along, its private frame included. */
  lemma SameFrames(s: State, s': State, t: Thread, task: Task)
    requires HeldOk(s) && s'.frames == s.frames && s'.table == s.table && s'.guards == s.guards
    requires s'.tasks == s.tasks[t := task] && Owns(task) == Owns(TaskOf(s, t)) && TaskOk(s.frames, s.table, task)
    ensures HeldOk(s')
  {
    forall g | 0 <= g < |s.frames| ensures Owned(s'.tasks, g) || FrameOk(s', g) {
      if Owned(s.tasks, g) {
        var u :| u in s.tasks && Owns(s.tasks[u]) == Some(g);
        assert u in s'.tasks && Owns(s'.tasks[u]) == Some(g);
      } else {
        assert FrameOk(s, g);
      }
    }
    forall u | u in s'.tasks ensures TaskOk(s'.frames, s'.table, s'.tasks[u]) {
      if u != t { assert TaskOk(s.frames, s.table, s.tasks[u]); }
    }
    forall u, v | u in s'.tasks && v in s'.tasks && u != v && Owns(s'.tasks[u]).Some?
      ensures Owns(s'.tasks[u]) != Owns(s'.tasks[v])
    {
      if u == t { assert t in s.tasks; }
      if v == t { assert t in s.tasks || Owns(s'.tasks[v]) == None; }
    }
  }

  // ---------------------------------------------------------------- each step

  lemma FetchHeld(s: State, t: Thread, p: PageId)
    requires HeldOk(s) && TaskOf(s, t) == Idle
    ensures HeldOk(Looked(s, t, p))
  {
    var s' := Looked(s, t, p);
    if p in s.table {
      var f := s.table[p];
      MappedNotOwned(s, p);
      assert Guard(p, f) in s'.guards;
      assert Local(s, s', t, f);
      forall g | g in s'.guards && g.frame == f ensures g.page in s'.table && s'.table[g.page] == f {
        if g != Guard(p, f) { assert g in s.guards; }
      }
      LocalKeeps(s, s', t, f);
    } else {
      SameFrames(s, s', t, Wanting(p, false));
    }
  }

  /** Claiming an unpinned frame, its page unmapped. */
  lemma ClaimHeld(s: State, s': State, t: Thread, f: nat)
    requires HeldOk(s) && Owns(TaskOf(s, t)) == None && f < |s.frames| && s.frames[f].pins == 0
    requires s'.frames == s.frames[f := Frame(None, 1)] && s'.guards == s.guards
    requires s'.table == if s.frames[f].page.Some? then s.table - {s.frames[f].page.value} else s.table
    requires t in s'.tasks && s'.tasks[t].Claimed? && s'.tasks[t].frame == f && s'.tasks == s.tasks[t := s'.tasks[t]]
    ensures HeldOk(s')
  {
    UnpinnedNotOwned(s, f);
    assert forall u :: u in s.tasks ==> Owns(s.tasks[u]) != Some(f);
    forall g | g in s.guards ensures g.frame != f {
      assert g.page in s.table && s.table[g.page] == g.frame;
    }
    assert Local(s, s', t, f);
    LocalKeeps(s, s', t, f);
  }

  /** Changes of the frame a thread holds privately, and of its hold on it. */
  lemma PrivateHeld(s: State, s': State, t: Thread, f: nat)
    requires HeldOk(s) && Owns(TaskOf(s, t)) == Some(f) && f < |s.frames|
    requires |s'.frames| == |s.frames| && s'.frames == s.frames[f := s'.frames[f]] && s'.table == s.table &&
             s'.guards == s.guards
    requires s'.tasks == s.tasks[t := TaskOf(s', t)] && t in s'.tasks
    requires (TaskOf(s', t).Loaded? && TaskOf(s', t).frame == f &&
              s'.frames[f] == Frame(Some(TaskOf(s', t).page), 1)) ||
             (Owns(TaskOf(s', t)) == None && s'.frames[f] == Frame(None, 0))
    ensures HeldOk(s')
  {
    assert TaskOk(s.frames, s.table, s.tasks[t]);
    forall p | p in s.table ensures s.table[p] != f { MappedNotOwned(s, p); }
    assert Local(s, s', t, f);
    LocalKeeps(s, s', t, f);
  }

  lemma PublishHeld(s: State, s': State, t: Thread, p: PageId, f: nat)
    requires HeldOk(s) && Owns(TaskOf(s, t)) == Some(f) && f < |s.frames| && p !in s.table
    requires s'.frames == s.frames[f := Frame(Some(p), 1)] && s'.table == s.table[p := f]
    requires s'.guards == s.guards + multiset{Guard(p, f)} && s'.tasks == s.tasks[t := Idle]
    ensures HeldOk(s')
  {
    assert TaskOk(s.frames, s.table, s.tasks[t]);
    forall q | q in s.table ensures s.table[q] != f { MappedNotOwned(s, q); }
    forall g | g in s.guards ensures g.frame != f { assert s.table[g.page] == g.frame; }
    assert Guard(p, f) !in s.guards;
    assert Local(s, s', t, f);
    LocalKeeps(s, s', t, f);
  }

  lemma UnpinHeld(s: State, g: Guard, t: Thread)
    requires HeldOk(s) && g in s.guards
    ensures HeldOk(Unpinned(s, g)) && Unpinned(s, g).guards == s.guards - multiset{g}
  {
    var f := g.frame;
    MappedNotOwned(s, g.page);
    var s' := Unpinned(s, g);
    var u := FreshThread(s.tasks);
    assert Local(s, s', u, f);
    forall h | h in s'.guards && h.frame == f ensures h.page in s'.table && s'.table[h.page] == f {
      assert h in s.guards;
    }
    LocalKeeps(s, s', u, f);
  }

  lemma FreshThread(tasks: map<Thread, Task>) returns (u: Thread)
    ensures u !in tasks
  {
    u := Above(tasks.Keys);
  }

  lemma {:induction false} Above(xs: set<nat>) returns (m: nat)
    ensures forall x :: x in xs ==> x < m
  {
    if x :| x in xs {
      var n := Above(xs - {x});
      m := if x < n then n else x + 1;
      assert forall y :: y in xs ==> y == x || y in xs - {x};
    } else {
      m := 0;
    }
  }

  lemma PublishStepHeld(s: State, t: Thread, s': State)
    requires Inv(s) && Step(s, Publish(t), s')
    ensures HeldOk(s')
  {
    var task := TaskOf(s, t);
    assert TaskOk(s.frames, s.table, task);
    if task.Loaded? && task.page in s.table {
      SameFrames(s, s', t, Lost(task.page, task.frame));
    } else {
      assert task.Claimed? ==> Births(task, task.page);
      if task.Loaded? { assert s.frames[task.frame := Frame(Some(task.page), 1)] == s.frames; }
      PublishHeld(s, s', t, task.page, task.frame);
    }
  }

  lemma StepKeepsHeld(s: State, a: Action, s': State)
    requires Inv(s) && Step(s, a, s')
    ensures HeldOk(s')
  {
    var task := TaskOf(s, a.t);
    match a
    case Fetch(t, p) => FetchHeld(s, t, p);
    case NewPage(t) => SameFrames(s, s', t, Wanting(s.nextPage, true));
    case TakeFree(t, n) =>
      if n == |s.free| {
        SameFrames(s, s', t, Evicting(task.page, task.isNew));
      } else {
        ClaimHeld(s, s', t, s.free[n]);
      }
    case Evict(t, v) => ClaimHeld(s, s', t, v);
    case Exhausted(t) => SameFrames(s, s', t, Idle);
    case Read(t) => PrivateHeld(s, s', t, task.frame);
    case Publish(t) => PublishStepHeld(s, t, s');
    case ResetLost(t) => PrivateHeld(s, s', t, task.frame);
    case PushFree(t) => SameFrames(s, s', t, Idle);
    case Unpin(t, g) => UnpinHeld(s, g, t);
  }

  /** The page a thread works for: its own unborn one, or one that exists. */
  ghost predicate WorkOk(task: Task, nextPage: PageId, unborn: set<PageId>) {
    !task.Idle? && !task.Returning? ==>
      task.page < nextPage && (task.page in unborn <==> Births(task, task.page))
  }

  lemma UnbornWork(s: State, t: Thread)
    requires UnbornOk(s)
    ensures WorkOk(TaskOf(s, t), s.nextPage, s.unborn)
  {
  }

  /** Replacing one thread's task by a later stage of the same job. */
  lemma SameJob(s: State, s': State, t: Thread, task: Task)
    requires UnbornOk(s) && s'.tasks == s.tasks[t := task] && s'.nextPage == s.nextPage && s'.unborn == s.unborn
    requires forall p :: p in s'.table ==> p < s.nextPage && p !in s.unborn
    requires WorkOk(task, s.nextPage, s.unborn) && forall p :: Births(task, p) ==> Births(TaskOf(s, t), p)
    ensures UnbornOk(s')
  {
    forall u, p | u in s'.tasks && Births(s'.tasks[u], p) ensures u in s.tasks && Births(s.tasks[u], p) {}
  }

  lemma NewPageUnborn(s: State, t: Thread, s': State)
    requires UnbornOk(s) && Step(s, NewPage(t), s')
    ensures UnbornOk(s')
  {
    forall u, p | u in s.tasks && Births(s.tasks[u], p) ensures p != s.nextPage {}
  }

  lemma PublishUnborn(s: State, t: Thread, s': State)
    requires UnbornOk(s) && Step(s, Publish(t), s')
    ensures UnbornOk(s')
  {
    var task := TaskOf(s, t);
    UnbornWork(s, t);
    if task.Loaded? {
      SameJob(s, s', t, TaskOf(s', t));
    } else {
      forall u, p | u in s'.tasks && u != t && Births(s.tasks[u], p) ensures p != task.page {
        assert Births(task, task.page);
      }
    }
  }

  lemma StepKeepsUnborn(s: State, a: Action, s': State)
    requires UnbornOk(s) && TableOk(s.frames, s.table) && Step(s, a, s')
    ensures UnbornOk(s')
  {
    UnbornWork(s, a.t);
    match a
    case Fetch(t, p) => if p !in s.table { SameJob(s, s', t, Wanting(p, false)); }
    case NewPage(t) => NewPageUnborn(s, t, s');
    case Publish(t) => PublishUnborn(s, t, s');
    case Unpin(t, g) =>
    case _ => SameJob(s, s', a.t, TaskOf(s', a.t));
  }

  lemma {:induction false} RunKeepsInv(ss: seq<State>, acts: seq<Action>, n: nat)
    requires Run(ss, acts) && n < |ss|
    ensures Inv(ss[n])
    decreases n
  {
    if n > 0 {
      RunKeepsInv(ss, acts, n - 1);
      StepKeepsHeld(ss[n - 1], acts[n - 1], ss[n]);
      StepKeepsUnborn(ss[n - 1], acts[n - 1], ss[n]);
    }
  }

  // ---------------------------------------------------------------- main results

  /** No frame ever has two owners, and every page-table entry leads to a frame that holds
      its page and is nobody's private one. */
  lemma OneOwner(ss: seq<State>, acts: seq<Action>, n: nat)
    requires Run(ss, acts) && n < |ss|
    ensures var s := ss[n];
      && (forall t, u :: t in s.tasks && u in s.tasks && t != u && Owns(s.tasks[t]).Some? ==>
            Owns(s.tasks[t]) != Owns(s.tasks[u]))
      && (forall p :: p in s.table ==>
            s.table[p] < |s.frames| && s.frames[s.table[p]].page == Some(p) && !Owned(s.tasks, s.table[p]))
  {
    RunKeepsInv(ss, acts, n);
    forall p | p in ss[n].table ensures !Owned(ss[n].tasks, ss[n].table[p]) { MappedNotOwned(ss[n], p); }
  }

  /** While somebody holds a guard, its frame holds its page with a pin on it; and giving
      the guard back is never refused. */
  lemma PinnedNeverRecycled(ss: seq<State>, acts: seq<Action>, n: nat, g: Guard)
    requires Run(ss, acts) && n < |ss| && g in ss[n].guards
    ensures var s := ss[n];
      && g.frame < |s.frames| && s.frames[g.frame].page == Some(g.page) && s.frames[g.frame].pins == s.guards[g] > 0
      && Unpinned(s, g).guards == s.guards - multiset{g}
  {
    RunKeepsInv(ss, acts, n);
    MappedNotOwned(ss[n], g.page);
    UnpinHeld(ss[n], g, 0);
  }

  // ---------------------------------------------------------------- one call alone

  ghost predicate Path(ss: seq<State>, acts: seq<Action>) {
    |ss| == |acts| + 1 && forall i {:trigger acts[i]} :: 0 <= i < |acts| ==> Step(ss[i], acts[i], ss[i + 1])
  }

  lemma Extend(ss: seq<State>, acts: seq<Action>, a: Action, s': State)
    requires Path(ss, acts) && Step(ss[|ss| - 1], a, s')
    ensures Path(ss + [s'], acts + [a])
  {
    var all, both := ss + [s'], acts + [a];
    forall i {:trigger both[i]} | 0 <= i < |both| ensures Step(all[i], both[i], all[i + 1]) {
      if i < |acts| { assert acts[i] == both[i] && all[i] == ss[i] && all[i + 1] == ss[i + 1]; }
    }
  }

  lemma FirstUsable(frames: seq<Frame>, free: seq<nat>) returns (n: nat)
    ensures n <= |free| && (forall j :: 0 <= j < n ==> !Usable(frames, free[j]))
    ensures n < |free| ==> Usable(frames, free[n])
  {
    n := 0;
    while n < |free| && !Usable(frames, free[n])
      invariant n <= |free| && forall j :: 0 <= j < n ==> !Usable(frames, free[j])
    {
      n := n + 1;
    }
  }

  /** A thread that needs a frame, with nothing in between: it gets one, or every frame is pinned. */
  lemma ClaimAlone(s: State, t: Thread) returns (ss: seq<State>, acts: seq<Action>)
    requires Inv(s) && TaskOf(s, t).Wanting? && TaskOf(s, t).page !in s.table
    ensures Path(ss, acts) && ss[0] == s
    ensures var s', p := ss[|ss| - 1], TaskOf(s, t).page;
      && s'.guards == s.guards && p !in s'.table
      && (if exists f :: 0 <= f < |s.frames| && s.frames[f].pins == 0
          then TaskOf(s', t).Claimed? && TaskOf(s', t).page == p && TaskOf(s', t).isNew == TaskOf(s, t).isNew &&
               TaskOf(s', t).frame < |s'.frames|
          else TaskOf(s', t) == Idle)
  {
    var Wanting(p, isNew) := TaskOf(s, t);
    var n := FirstUsable(s.frames, s.free);
    if n < |s.free| {
      var f := s.free[n];
      var s1 := With(s.(free := s.free[n + 1..], frames := s.frames[f := Frame(None, 1)]), t, Claimed(p, f, isNew));
      ss, acts := [s, s1], [TakeFree(t, n)];
      assert s.frames[f].pins == 0;
    } else {
      var s1 := With(s.(free := []), t, Evicting(p, isNew));
      if v: nat :| v < |s.frames| && s.frames[v].pins == 0 {
        ss, acts := [s, s1, Evicted(s1, t, Evicting(p, isNew), v)], [TakeFree(t, n), Evict(t, v)];
      } else {
        ss, acts := [s, s1, With(s1, t, Idle)], [TakeFree(t, n), Exhausted(t)];
      }
    }
  }

  /** A fetch with nothing in between ends with one more guard, for the page it asked for, and
      fails exactly when the page is not resident and every frame is pinned. */
  lemma FetchAlone(s: State, t: Thread, p: PageId) returns (ss: seq<State>, acts: seq<Action>)
    requires Inv(s) && TaskOf(s, t) == Idle && p < s.nextPage && p !in s.unborn
    ensures Path(ss, acts) && ss[0] == s && TaskOf(ss[|ss| - 1], t) == Idle
    ensures var s' := ss[|ss| - 1];
      if p in s.table || exists f :: 0 <= f < |s.frames| && s.frames[f].pins == 0
      then p in s'.table && s'.guards == s.guards + multiset{Guard(p, s'.table[p])}
      else s'.guards == s.guards
  {
    if p in s.table {
      ss, acts := [s, Looked(s, t, p)], [Fetch(t, p)];
    } else {
      var s1 := With(s, t, Wanting(p, false));
      StepKeepsHeld(s, Fetch(t, p), s1);
      StepKeepsUnborn(s, Fetch(t, p), s1);
      var rs, more := ClaimAlone(s1, t);
      ss, acts := LoadClaimed(rs, more, t, p);
      Prepend(s, Fetch(t, p), ss, acts);
      ss, acts := [s] + ss, [Fetch(t, p)] + acts;
    }
  }

  /** If the thread has got a frame, it reads the page into it and publishes it. */
  lemma LoadClaimed(rs: seq<State>, more: seq<Action>, t: Thread, p: PageId) returns (ss: seq<State>, acts: seq<Action>)
    requires Path(rs, more)
    requires var s := rs[|rs| - 1];
      p !in s.table && (TaskOf(s, t) == Idle ||
        (TaskOf(s, t).Claimed? && !TaskOf(s, t).isNew && TaskOf(s, t).page == p && TaskOf(s, t).frame < |s.frames|))
    ensures Path(ss, acts) && ss[0] == rs[0]
    ensures var s, s' := rs[|rs| - 1], ss[|ss| - 1];
      && TaskOf(s', t) == Idle
      && if TaskOf(s, t) == Idle then s' == s
         else p in s'.table && s'.guards == s.guards + multiset{Guard(p, s'.table[p])}
  {
    ss, acts := rs, more;
    if TaskOf(rs[|rs| - 1], t) != Idle {
      var s1, s2 := LoadAlone(rs[|rs| - 1], t);
      Extend(ss, acts, Read(t), s1);
      Extend(ss + [s1], acts + [Read(t)], Publish(t), s2);
      ss, acts := ss + [s1] + [s2], acts + [Read(t)] + [Publish(t)];
    }
  }

  lemma LoadAlone(s: State, t: Thread) returns (s1: State, s2: State)
    requires TaskOf(s, t).Claimed? && !TaskOf(s, t).isNew && TaskOf(s, t).frame < |s.frames|
    requires TaskOf(s, t).page !in s.table
    ensures Step(s, Read(t), s1) && Step(s1, Publish(t), s2) && TaskOf(s2, t) == Idle
    ensures var p := TaskOf(s, t).page; p in s2.table && s2.guards == s.guards + multiset{Guard(p, s2.table[p])}
  {
    var Claimed(p, f, _) := TaskOf(s, t);
    s1 := With(s.(frames := s.frames[f := Frame(Some(p), 1)]), t, Loaded(p, f));
    s2 := Published(s1, t, p, f);
  }

  lemma Prepend(s: State, a: Action, rs: seq<State>, more: seq<Action>)
    requires Path(rs, more) && Step(s, a, rs[0])
    ensures Path([s] + rs, [a] + more)
  {
    var all, both := [s] + rs, [a] + more;
    forall i {:trigger both[i]} | 0 <= i < |both| ensures Step(all[i], both[i], all[i + 1]) {
      if i > 0 { assert more[i - 1] == both[i] && all[i] == rs[i - 1] && all[i + 1] == rs[i]; }
    }
  }

  /** The same of a new page: it is resident under the next id, with one guard. */
  lemma NewPageAlone(s: State, t: Thread) returns (ss: seq<State>, acts: seq<Action>)
    requires Inv(s) && TaskOf(s, t) == Idle
    ensures Path(ss, acts) && ss[0] == s && TaskOf(ss[|ss| - 1], t) == Idle
    ensures var s', p := ss[|ss| - 1], s.nextPage;
      if exists f :: 0 <= f < |s.frames| && s.frames[f].pins == 0
      then p in s'.table && p !in s'.unborn && s'.guards == s.guards + multiset{Guard(p, s'.table[p])}
      else s'.guards == s.guards
  {
    var p := s.nextPage;
    var s1 := With(s, t, Wanting(p, true)).(nextPage := p + 1, unborn := s.unborn + {p});
    StepKeepsHeld(s, NewPage(t), s1);
    StepKeepsUnborn(s, NewPage(t), s1);
    var rs, more := ClaimAlone(s1, t);
    ss, acts := [s] + rs, [NewPage(t)] + more;
    Prepend(s, NewPage(t), rs, more);
    var s2 := ss[|ss| - 1];
    if TaskOf(s2, t).Claimed? {
      var f := TaskOf(s2, t).frame;
      var s3 := Published(s2.(frames := s2.frames[f := Frame(Some(p), 1)], unborn := s2.unborn - {p}), t, p, f);
      Extend(ss, acts, Publish(t), s3);
      ss, acts := ss + [s3], acts + [Publish(t)];
    }
  }
}
