/** The buffer pool: frames caching pages of a disk, with LRU-K replacement, as one caller
    at a time sees it (`FrameOwnership` has the interleavings). */
module BufferPool {
  import opened Keys

  type PageId = nat
  type Data = seq<Byte>

  /** `page` is None for an empty frame; `history` holds the last k access times. */
  datatype Frame = Frame(page: Option<PageId>, data: Data, pins: nat, dirty: bool, history: seq<nat>)

  const CLAIMED := Frame(None, [], 1, false, [])

  const INVALID_PAGE: PageId := 0xFFFF_FFFF_FFFF_FFFF

  datatype FetchResult = Resident(frame: nat) | AllPinned | InvalidPage

  // ---------------------------------------------------------------- LRU-K

  /** Backward k-distance; None is infinite, the lot of pages with fewer than k accesses. */
  function Distance(history: seq<nat>, k: nat, now: nat): Option<nat> {
    if |history| < k || k == 0 then None else Some(if now > history[0] then now - history[0] else 0)
  }

  predicate Farther(a: Option<nat>, b: Option<nat>) {
    b.Some? && (a == None || a.value > b.value)
  }

  /** `record_access`. */
  function Accessed(history: seq<nat>, k: nat, now: nat): seq<nat> {
    (if |history| == k && k > 0 then history[1..] else history) + [now]
  }

  function LastOf(log: seq<nat>, k: nat): seq<nat> {
    if |log| <= k then log else log[|log| - k..]
  }

  /** Recording accesses one by one leaves the last k of them, so the head of a full
      history is the k-th most recent access. */
  lemma HistoryIsLastK(log: seq<nat>, k: nat, now: nat)
    requires k > 0
    ensures Accessed(LastOf(log, k), k, now) == LastOf(log + [now], k)
    ensures |LastOf(log, k)| == k ==> LastOf(log, k)[0] == log[|log| - k]
  {
  }

  /** The frame keeps the last k of the accesses to its page, which are in order and past. */
  ghost predicate LogOk(frame: Frame, log: seq<nat>, k: nat, now: nat) {
    && frame.history == LastOf(log, k)
    && (forall i :: 0 <= i < |log| ==> log[i] < now)
    && (forall i, j :: 0 <= i < j < |log| ==> log[i] < log[j])
  }

  ghost predicate LogAt(frames: seq<Frame>, logs: seq<seq<nat>>, k: nat, now: nat, f: int)
    requires |logs| == |frames|
  {
    0 <= f < |frames| ==> LogOk(frames[f], logs[f], k, now)
  }

  ghost predicate LogsOk(frames: seq<Frame>, logs: seq<seq<nat>>, k: nat, now: nat) {
    |logs| == |frames| && forall f :: LogAt(frames, logs, k, now, f)
  }

  /** The recorded distance is the time since the k-th most recent access. */
  lemma DistanceFromLog(frame: Frame, log: seq<nat>, k: nat, now: nat)
    requires k > 0 && LogOk(frame, log, k, now)
    ensures Distance(frame.history, k, now) == if |log| < k then None else Some(now - log[|log| - k])
  {
  }

  lemma AccessLogged(frame: Frame, log: seq<nat>, k: nat, now: nat)
    requires k > 0 && LogOk(frame, log, k, now)
    ensures LogOk(frame.(pins := frame.pins + 1, history := Accessed(frame.history, k, now)), log + [now], k, now + 1)
  {
    HistoryIsLastK(log, k, now);
  }

  lemma LogsPut(frames: seq<Frame>, logs: seq<seq<nat>>, k: nat, now: nat, f: nat, frame: Frame, log: seq<nat>)
    requires LogsOk(frames, logs, k, now) && f < |frames| && LogOk(frame, log, k, now)
    ensures LogsOk(frames[f := frame], logs[f := log], k, now)
  {
    var frames', logs' := frames[f := frame], logs[f := log];
    forall g ensures LogAt(frames', logs', k, now, g) { assert LogAt(frames, logs, k, now, g); }
  }

  lemma FirstAccess(frames: seq<Frame>, logs: seq<seq<nat>>, k: nat, now: nat, v: nat, frame: Frame)
    requires LogsOk(frames, logs, k, now) && v < |frames| && frame.history == [now] && k > 0
    ensures LogsOk(frames[v := frame], logs[v := [now]], k, now + 1)
  {
    LogsLater(frames, logs, k, now, now + 1);
    LogsPut(frames, logs, k, now + 1, v, frame, [now]);
  }

  lemma LogsLater(frames: seq<Frame>, logs: seq<seq<nat>>, k: nat, now: nat, later: nat)
    requires LogsOk(frames, logs, k, now) && now <= later
    ensures LogsOk(frames, logs, k, later)
  {
    forall f ensures LogAt(frames, logs, k, later, f) { assert LogAt(frames, logs, k, now, f); }
  }

  // ---------------------------------------------------------------- contents

  /** A page never written reads as zeros. */
  function OnDisk(disk: map<PageId, Data>, p: PageId, zero: Data): Data {
    if p in disk then disk[p] else zero
  }

  ghost predicate TableOk(frames: seq<Frame>, table: map<PageId, nat>) {
    && (forall p :: p in table ==> table[p] < |frames| && frames[table[p]].page == Some(p))
    && (forall f :: 0 <= f < |frames| && frames[f].page.Some? ==>
          frames[f].page.value in table && table[frames[f].page.value] == f)
  }

  ghost predicate CleanOk(frames: seq<Frame>, disk: map<PageId, Data>, zero: Data) {
    forall f :: 0 <= f < |frames| && frames[f].page.Some? && !frames[f].dirty ==>
      frames[f].data == OnDisk(disk, frames[f].page.value, zero)
  }

  /** Only `claimed` may be an empty frame with a pin on it. */
  ghost predicate EmptyOk(frames: seq<Frame>, claimed: Option<nat>) {
    && (claimed.Some? ==>
          claimed.value < |frames| && frames[claimed.value].page == None && frames[claimed.value].pins == 1)
    && (forall f :: 0 <= f < |frames| && frames[f].page == None && claimed != Some(f) ==> frames[f].pins == 0)
  }

  /** What the pool as a whole says is in page p. */
  function Content(frames: seq<Frame>, table: map<PageId, nat>, disk: map<PageId, Data>, zero: Data, p: PageId): Data
    requires p in table ==> table[p] < |frames|
  {
    if p in table then frames[table[p]].data else OnDisk(disk, p, zero)
  }

  /** Taking the page out of an unpinned frame after writing it back. */
  lemma EvictKeepsContent(frames: seq<Frame>, table: map<PageId, nat>, disk: map<PageId, Data>, zero: Data, v: nat,
                          p: PageId)
    requires TableOk(frames, table) && CleanOk(frames, disk, zero) && EmptyOk(frames, None)
    requires v < |frames| && frames[v].page == Some(p) && frames[v].pins == 0
    ensures var disk' := if frames[v].dirty then disk[p := frames[v].data] else disk;
      var frames', table' := frames[v := CLAIMED], table - {p};
      && TableOk(frames', table') && CleanOk(frames', disk', zero) && EmptyOk(frames', Some(v))
      && (forall q :: Content(frames', table', disk', zero, q) == Content(frames, table, disk, zero, q))
  {
    var disk' := if frames[v].dirty then disk[p := frames[v].data] else disk;
    var frames', table' := frames[v := CLAIMED], table - {p};
    forall f | 0 <= f < |frames'| && frames'[f].page.Some?
      ensures frames'[f].page.value in table' && table'[frames'[f].page.value] == f
      ensures !frames'[f].dirty ==> frames'[f].data == OnDisk(disk', frames'[f].page.value, zero)
    {
      assert frames'[f] == frames[f];
    }
    assert TableOk(frames', table');
    forall q ensures Content(frames', table', disk', zero, q) == Content(frames, table, disk, zero, q) {
      if q in table' { assert frames'[table'[q]] == frames[table[q]]; }
    }
  }

  /** Putting a page into a claimed frame; its data is what the pool said it is. */
  lemma LoadKeepsContent(frames: seq<Frame>, table: map<PageId, nat>, disk: map<PageId, Data>, zero: Data, v: nat,
                         p: PageId, frame: Frame)
    requires TableOk(frames, table) && CleanOk(frames, disk, zero) && EmptyOk(frames, Some(v))
    requires p !in table && frame.page == Some(p) && (frame.dirty || frame.data == OnDisk(disk, p, zero))
    ensures var frames', table' := frames[v := frame], table[p := v];
      && TableOk(frames', table') && CleanOk(frames', disk, zero) && EmptyOk(frames', None)
      && (forall q :: q != p ==> Content(frames', table', disk, zero, q) == Content(frames, table, disk, zero, q))
      && Content(frames', table', disk, zero, p) == frame.data
  {
    var frames', table' := frames[v := frame], table[p := v];
    forall f | 0 <= f < |frames'| && frames'[f].page.Some?
      ensures frames'[f].page.value in table' && table'[frames'[f].page.value] == f
      ensures !frames'[f].dirty ==> frames'[f].data == OnDisk(disk, frames'[f].page.value, zero)
    {
      if f != v { assert frames'[f] == frames[f]; }
    }
    forall q | q in table && q != p ensures frames'[table'[q]] == frames[table[q]] {
      assert table[q] != v;
    }
  }

  /** Changing a resident frame without touching which page it holds. */
  lemma TouchKeepsTable(frames: seq<Frame>, table: map<PageId, nat>, disk: map<PageId, Data>, zero: Data, f: nat,
                        frame: Frame)
    requires TableOk(frames, table) && CleanOk(frames, disk, zero) && EmptyOk(frames, None)
    requires f < |frames| && frames[f].page.Some? && frame.page == frames[f].page
    requires frame.dirty || frame.data == OnDisk(disk, frame.page.value, zero)
    ensures var frames' := frames[f := frame];
      && TableOk(frames', table) && CleanOk(frames', disk, zero) && EmptyOk(frames', None)
      && (forall q :: q != frame.page.value ==>
            Content(frames', table, disk, zero, q) == Content(frames, table, disk, zero, q))
      && Content(frames', table, disk, zero, frame.page.value) == frame.data
  {
    var frames' := frames[f := frame];
    assert TableOk(frames', table);
  }

  lemma ClaimKeepsContent(frames: seq<Frame>, table: map<PageId, nat>, disk: map<PageId, Data>, zero: Data, v: nat)
    requires TableOk(frames, table) && CleanOk(frames, disk, zero) && EmptyOk(frames, None)
    requires v < |frames| && frames[v].page == None
    ensures var frames' := frames[v := CLAIMED];
      && TableOk(frames', table) && CleanOk(frames', disk, zero) && EmptyOk(frames', Some(v))
      && (forall q :: Content(frames', table, disk, zero, q) == Content(frames, table, disk, zero, q))
  {
    var frames' := frames[v := CLAIMED];
    assert TableOk(frames', table);
    forall q | q in table ensures frames'[table[q]] == frames[table[q]] {}
  }

  /** What the scan sees: frame v is empty, or no frame is and no unpinned one has a larger
      recorded distance than v. */
  ghost predicate WorstSeen(frames: seq<Frame>, k: nat, now: nat, v: nat) {
    v < |frames| && (frames[v].page.Some? ==>
      forall u :: 0 <= u < |frames| && frames[u].pins == 0 ==>
        frames[u].page.Some? && !Farther(Distance(frames[u].history, k, now), Distance(frames[v].history, k, now)))
  }

  /** Page accesses, oldest first: the first log has fewer than k, or the second has k too and
      its k-th most recent one is no older. */
  predicate NoNewer(a: seq<nat>, b: seq<nat>, k: nat) {
    |a| < k || (k > 0 && |b| >= k && a[|a| - k] <= b[|b| - k])
  }

  /** Frame v is empty; or no unpinned frame is, and v's page was accessed fewer than k times or
      its k-th most recent access is the oldest of all unpinned pages, each accessed k times. */
  ghost predicate Worst(frames: seq<Frame>, logs: seq<seq<nat>>, k: nat, v: nat) {
    v < |frames| == |logs| && (frames[v].page.Some? ==>
      forall u :: 0 <= u < |frames| && frames[u].pins == 0 ==> frames[u].page.Some? && NoNewer(logs[v], logs[u], k))
  }

  lemma SeenIsWorst(frames: seq<Frame>, logs: seq<seq<nat>>, k: nat, now: nat, v: nat)
    requires k > 0 && LogsOk(frames, logs, k, now)
    ensures WorstSeen(frames, k, now, v) <==> Worst(frames, logs, k, v)
  {
    forall u | 0 <= u < |frames|
      ensures Distance(frames[u].history, k, now) == if |logs[u]| < k then None else Some(now - logs[u][|logs[u]| - k])
    {
      assert LogAt(frames, logs, k, now, u);
      DistanceFromLog(frames[u], logs[u], k, now);
    }
  }

  lemma FlushKeepsContent(frames: seq<Frame>, table: map<PageId, nat>, disk: map<PageId, Data>, zero: Data, p: PageId)
    requires TableOk(frames, table) && CleanOk(frames, disk, zero) && EmptyOk(frames, None) && p in table
    ensures var f := frames[table[p]]; var frames', disk' := frames[table[p] := f.(dirty := false)], disk[p := f.data];
      && TableOk(frames', table) && CleanOk(frames', disk', zero) && EmptyOk(frames', None)
      && (forall q :: Content(frames', table, disk', zero, q) == Content(frames, table, disk, zero, q))
  {
    var f := frames[table[p]];
    var frames', disk' := frames[table[p] := f.(dirty := false)], disk[p := f.data];
    assert TableOk(frames', table);
    forall g | 0 <= g < |frames'| && frames'[g].page.Some? && !frames'[g].dirty
      ensures frames'[g].data == OnDisk(disk', frames'[g].page.value, zero)
    {
      if g != table[p] { assert frames[g].page != Some(p); }
    }
  }

  ghost predicate PoolOk(frames: seq<Frame>, table: map<PageId, nat>, disk: map<PageId, Data>, zero: Data,
                         logs: seq<seq<nat>>, k: nat, clock: nat, claimed: Option<nat>) {
    && frames != [] && TableOk(frames, table) && CleanOk(frames, disk, zero) && EmptyOk(frames, claimed)
    && LogsOk(frames, logs, k, clock)
  }

  /** What the pool shows of page p. */
  function Seen(frames: seq<Frame>, table: map<PageId, nat>, disk: map<PageId, Data>, zero: Data, p: PageId): Data {
    if p in table && table[p] < |frames| then frames[table[p]].data else OnDisk(disk, p, zero)
  }

  lemma FillKeepsOk(frames: seq<Frame>, table: map<PageId, nat>, disk: map<PageId, Data>, zero: Data,
                    logs: seq<seq<nat>>, k: nat, clock: nat, v: nat, p: PageId, frame: Frame)
    requires k > 0 && PoolOk(frames, table, disk, zero, logs, k, clock, Some(v))
    requires p !in table && frame.page == Some(p) && (frame.dirty || frame.data == OnDisk(disk, p, zero))
    requires frame.history == [clock]
    ensures PoolOk(frames[v := frame], table[p := v], disk, zero, logs[v := [clock]], k, clock + 1, None)
    ensures forall q :: q != p ==>
      Seen(frames[v := frame], table[p := v], disk, zero, q) == Seen(frames, table, disk, zero, q)
  {
    LoadKeepsContent(frames, table, disk, zero, v, p, frame);
    FirstAccess(frames, logs, k, clock, v, frame);
  }

  lemma RecycleKeepsOk(frames: seq<Frame>, table: map<PageId, nat>, disk: map<PageId, Data>, zero: Data,
                       logs: seq<seq<nat>>, k: nat, clock: nat, v: nat, p: PageId, disk': map<PageId, Data>)
    requires PoolOk(frames, table, disk, zero, logs, k, clock, None)
    requires v < |frames| && frames[v].page == Some(p) && frames[v].pins == 0
    requires disk' == if frames[v].dirty then disk[p := frames[v].data] else disk
    ensures PoolOk(frames[v := CLAIMED], table - {p}, disk', zero, logs[v := []], k, clock, Some(v))
    ensures forall q :: Seen(frames[v := CLAIMED], table - {p}, disk', zero, q) == Seen(frames, table, disk, zero, q)
  {
    EvictKeepsContent(frames, table, disk, zero, v, p);
    LogsPut(frames, logs, k, clock, v, CLAIMED, []);
  }

  // ---------------------------------------------------------------- the pool

  class Pool {
    const k: nat
    const zero: Data
    var frames: seq<Frame>
    var table: map<PageId, nat>
    var free: seq<nat>
    var clock: nat
    var disk: map<PageId, Data>
    var nextPage: PageId
    ghost var logs: seq<seq<nat>>       // of each frame, every access to its page since it was loaded

    ghost predicate Ok(claimed: Option<nat>)
      reads this
    {
      && k > 0 && PoolOk(frames, table, disk, zero, logs, k, clock, claimed)
      && (forall i :: 0 <= i < |free| ==> free[i] < |frames|)
    }

    /** Only allocated pages were ever fetched. */
    ghost predicate Allocated()
      reads this
    {
      (forall p :: p in table ==> p < nextPage) && (forall p :: p in disk ==> p < nextPage)
    }

    ghost predicate Valid()
      reads this
    {
      Ok(None)
    }

    /** The pool as a plain map from page to bytes. */
    ghost function View(p: PageId): Data
      reads this
    {
      Seen(frames, table, disk, zero, p)
    }

    constructor (poolSize: nat, k: nat, zero: Data)
      requires poolSize > 0 && k > 0
      ensures Valid() && Allocated() && |frames| == poolSize && nextPage == 0 && forall p :: View(p) == zero
    {
      this.k, this.zero := k, zero;
      frames := seq(poolSize, _ => Frame(None, zero, 0, false, []));
      free := seq(poolSize, i => i);
      table, clock, disk, nextPage := map[], 1, map[], 0;
      logs := seq(poolSize, _ => []);
    }

    /** The scan of `evict_victim`: an empty unpinned frame at once, else the first of
        those with the largest backward k-distance. */
    method PickVictim() returns (r: Option<nat>)
      requires k > 0 && LogsOk(frames, logs, k, clock)
      ensures r == None <==> forall f :: 0 <= f < |frames| ==> frames[f].pins > 0
      ensures r.Some? ==> r.value < |frames| && frames[r.value].pins == 0 && Worst(frames, logs, k, r.value)
    {
      r := None;
      for i := 0 to |frames|
        invariant r == None <==> forall f :: 0 <= f < i ==> frames[f].pins > 0
        invariant r.Some? ==> r.value < i && frames[r.value].pins == 0 && frames[r.value].page.Some?
        invariant r.Some? ==> WorstSeen(frames[..i], k, clock, r.value)
      {
        if frames[i].pins == 0 {
          if frames[i].page == None {
            SeenIsWorst(frames, logs, k, clock, i);
            return Some(i);
          }
          if r == None || Farther(Distance(frames[i].history, k, clock), Distance(frames[r.value].history, k, clock)) {
            r := Some(i);
          }
        }
      }
      assert frames[..|frames|] == frames;
      if r.Some? { SeenIsWorst(frames, logs, k, clock, r.value); }
    }

    /** Claims an empty frame. */
    method ClaimEmpty(v: nat)
      requires Valid() && v < |frames| && frames[v].pins == 0 && frames[v].page == None
      modifies this`frames, this`logs
      ensures Claims(old(frames), old(table), old(logs), v) && Ok(Some(v)) && forall p :: View(p) == old(View(p))
    {
      ClaimKeepsContent(frames, table, disk, zero, v);
      LogsPut(frames, logs, k, clock, v, CLAIMED, []);
      frames, logs := frames[v := CLAIMED], logs[v := []];
    }

    /** Writes an unpinned frame's page back if dirty, unmaps it and claims the frame. */
    method Recycle(v: nat)
      requires Valid() && v < |frames| && frames[v].pins == 0 && frames[v].page.Some?
      modifies this`frames, this`table, this`disk, this`logs
      ensures Claims(old(frames), old(table), old(logs), v) && Ok(Some(v)) && forall p :: View(p) == old(View(p))
      ensures forall p :: p in disk ==> p in old(disk) || p in old(table)
    {
      var f := frames[v];
      var newDisk := if f.dirty then disk[f.page.value := f.data] else disk;
      RecycleKeepsOk(frames, table, disk, zero, logs, k, clock, v, f.page.value, newDisk);
      frames, table, disk, logs := frames[v := CLAIMED], table - {f.page.value}, newDisk, logs[v := []];
    }

    /** `evict_victim`. */
    method EvictVictim() returns (r: Option<nat>)
      requires Valid()
      modifies this`frames, this`table, this`disk, this`logs
      ensures r == None ==> Valid() && unchanged(this) && forall f :: 0 <= f < |frames| ==> frames[f].pins > 0
      ensures r.Some? ==>
        Claims(old(frames), old(table), old(logs), r.value) && Ok(r) && forall p :: View(p) == old(View(p))
      ensures r.Some? ==> Worst(old(frames), old(logs), k, r.value)
      ensures forall p :: p in disk ==> p in old(disk) || p in old(table)
    {
      r := PickVictim();
      if r.Some? {
        if frames[r.value].page == None { ClaimEmpty(r.value); } else { Recycle(r.value); }
      }
    }

    /** Frame v was unpinned and is now claimed; every other frame and mapping stands. */
    ghost predicate Claims(before: seq<Frame>, tableBefore: map<PageId, nat>, logsBefore: seq<seq<nat>>, v: nat)
      reads this
    {
      && v < |before| && before[v].pins == 0 && frames == before[v := CLAIMED]
      && |logsBefore| == |before| && logs == logsBefore[v := []]
      && table == if before[v].page.Some? then tableBefore - {before[v].page.value} else tableBefore
    }

    /** `allocate_frame`: the free list first, skipping entries gone stale, then eviction. */
    method AllocateFrame() returns (r: Option<nat>)
      requires Valid()
      modifies this`frames, this`table, this`disk, this`free, this`logs
      ensures r == None ==>
        Valid() && frames == old(frames) && table == old(table) && disk == old(disk) && logs == old(logs)
      ensures r == None ==> forall f :: 0 <= f < |frames| ==> frames[f].pins > 0
      ensures r.Some? ==>
        Claims(old(frames), old(table), old(logs), r.value) && Ok(r) && forall p :: View(p) == old(View(p))
      ensures r.Some? ==> Worst(old(frames), old(logs), k, r.value)
      ensures forall p :: p in disk ==> p in old(disk) || p in old(table)
    {
      while free != []
        invariant Valid() && frames == old(frames) && table == old(table) && disk == old(disk) && logs == old(logs)
        decreases |free|
      {
        var idx := free[0];
        free := free[1..];
        if frames[idx].pins == 0 && frames[idx].page == None {
          ClaimEmpty(idx);
          return Some(idx);
        }
      }
      r := EvictVictim();
    }

    /** Page p moves into the claimed frame v. */
    method Fill(v: nat, p: PageId, data: Data, dirty: bool)
      requires Ok(Some(v)) && p !in table && (dirty || data == OnDisk(disk, p, zero))
      modifies this`frames, this`table, this`clock, this`logs
      ensures Valid() && frames == old(frames)[v := Frame(Some(p), data, 1, dirty, [old(clock)])] &&
              table == old(table)[p := v]
      ensures View(p) == data && forall q :: q != p ==> View(q) == old(View(q))
      ensures clock == old(clock) + 1 && logs == old(logs)[v := [old(clock)]]
    {
      var frame := Frame(Some(p), data, 1, dirty, [clock]);
      FillKeepsOk(frames, table, disk, zero, logs, k, clock, v, p, frame);
      frames, table, logs, clock := frames[v := frame], table[p := v], logs[v := [clock]], clock + 1;
    }

    /** Gets a frame for page p: its disk contents, or zeros and dirty for a new page. */
    method Admit(p: PageId, isNew: bool) returns (r: Option<nat>)
      requires Valid() && p !in table && (isNew ==> p !in disk)
      modifies this`frames, this`table, this`disk, this`free, this`clock, this`logs
      ensures Valid() && forall q :: View(q) == old(View(q))
      ensures r == None ==>
        frames == old(frames) && table == old(table) && forall f :: 0 <= f < |frames| ==> frames[f].pins > 0
      ensures r == None ==> logs == old(logs)
      ensures r.Some? ==>
        Admitted(old(frames), old(table), old(logs), r.value, p, isNew, old(clock)) && frames[r.value].data == View(p)
      ensures forall q :: q in disk ==> q in old(disk) || q in old(table)
    {
      r := AllocateFrame();
      if r.Some? {
        Fill(r.value, p, OnDisk(disk, p, zero), isNew);
      }
    }

    /** The worst frame now holds page p, pinned once; the rest stands. */
    ghost predicate Admitted(before: seq<Frame>, tableBefore: map<PageId, nat>, logsBefore: seq<seq<nat>>, v: nat,
                             p: PageId, isNew: bool, now: nat)
      reads this
    {
      && v < |before| == |logsBefore| && before[v].pins == 0 && Worst(before, logsBefore, k, v)
      && |frames| == |before| && frames == before[v := frames[v]] && logs == logsBefore[v := [now]]
      && frames[v].page == Some(p) && frames[v].pins == 1 && frames[v].dirty == isNew && frames[v].history == [now]
      && table == (if before[v].page.Some? then tableBefore - {before[v].page.value} else tableBefore)[p := v]
    }

    /** A resident frame changes, still holding the same page; `log` is its access log then. */
    method Touch(f: nat, frame: Frame, ghost log: seq<nat>)
      requires Valid() && f < |frames| && frames[f].page.Some? && frame.page == frames[f].page
      requires frame.dirty || frame.data == OnDisk(disk, frame.page.value, zero)
      requires LogOk(frame, log, k, clock)
      modifies this`frames, this`logs
      ensures Valid() && frames == old(frames)[f := frame] && logs == old(logs)[f := log]
      ensures View(frame.page.value) == frame.data && forall q :: q != frame.page.value ==> View(q) == old(View(q))
    {
      TouchKeepsTable(frames, table, disk, zero, f, frame);
      LogsPut(frames, logs, k, clock, f, frame, log);
      frames, logs := frames[f := frame], logs[f := log];
    }

    ghost predicate OneMoreAccess(logsBefore: seq<seq<nat>>, f: nat, now: nat)
      reads this
    {
      f < |logsBefore| && logs == logsBefore[f := logsBefore[f] + [now]]
    }

    /** A hit: one more pin and one more access. */
    method Hit(p: PageId) returns (f: nat)
      requires Valid() && p in table
      modifies this`frames, this`clock, this`logs
      ensures Valid() && (forall q :: View(q) == old(View(q))) && f == table[p] && clock == old(clock) + 1
      ensures OneMoreAccess(old(logs), f, old(clock))
      ensures frames == old(frames)[f := frames[f]] && frames[f].pins == old(frames)[f].pins + 1 &&
              frames[f].page == Some(p)
    {
      f := table[p];
      var frame := frames[f].(pins := frames[f].pins + 1, history := Accessed(frames[f].history, k, clock));
      ghost var log := logs[f] + [clock];
      assert LogAt(frames, logs, k, clock, f);
      AccessLogged(frames[f], logs[f], k, clock);
      LogsLater(frames, logs, k, clock, clock + 1);
      clock := clock + 1;
      Touch(f, frame, log);
    }

    /** `fetch_page`: a hit, or a load from disk, where a page never written reads as zeros. */
    method FetchPage(p: PageId) returns (r: FetchResult)
      requires Valid()
      modifies this`frames, this`table, this`disk, this`free, this`clock, this`logs
      ensures Valid() && forall q :: View(q) == old(View(q))
      ensures r == InvalidPage <==> p == INVALID_PAGE
      ensures r == InvalidPage ==> unchanged(this)
      ensures r == AllPinned ==> p !in table && forall f :: 0 <= f < |frames| ==> frames[f].pins > 0
      ensures r.Resident? ==>
        p in table && table[p] == r.frame && frames[r.frame].data == View(p) && frames[r.frame].pins > 0
      ensures r.Resident? && p in old(table) ==> OneMoreAccess(old(logs), r.frame, old(clock))
      ensures r.Resident? && p !in old(table) ==>
        Admitted(old(frames), old(table), old(logs), r.frame, p, false, old(clock))
      ensures PinnedStay(old(frames), old(table))
      ensures old(Allocated()) && p < nextPage ==> Allocated()
    {
      if p == INVALID_PAGE { return InvalidPage; }
      if p in table {
        var f := Hit(p);
        return Resident(f);
      }
      var v := Admit(p, false);
      r := if v.Some? then Resident(v.value) else AllPinned;
    }

    /** Pages somebody had pinned are still where they were, pinned. */
    ghost predicate PinnedStay(before: seq<Frame>, tableBefore: map<PageId, nat>)
      reads this
    {
      forall q :: q in tableBefore && tableBefore[q] < |before| && before[tableBefore[q]].pins > 0 ==>
        q in table && table[q] == tableBefore[q] && table[q] < |frames| &&
        frames[table[q]].pins >= before[table[q]].pins
    }

    /** `new_page`: the next id, zeroed and dirty so that it reaches the disk.  `NewOverFetched`
        tells why the id must not have been fetched before it was allocated. */
    method NewPage() returns (r: Option<nat>, p: PageId)
      requires Valid() && nextPage !in table && nextPage !in disk
      modifies this
      ensures Valid() && p == old(nextPage) && nextPage == p + 1 && (old(Allocated()) ==> Allocated())
      ensures View(p) == zero && forall q :: View(q) == old(View(q))
      ensures r == None ==>
        frames == old(frames) && table == old(table) && forall f :: 0 <= f < |frames| ==> frames[f].pins > 0
      ensures r.Some? ==> Admitted(old(frames), old(table), old(logs), r.value, p, true, old(clock))
      ensures r == None ==> logs == old(logs)
      ensures PinnedStay(old(frames), old(table))
    {
      p := nextPage;
      nextPage := nextPage + 1;
      r := Admit(p, true);
    }

    /** `PageGuard::write`. */
    method WritePage(p: PageId, data: Data)
      requires Valid() && p in table && frames[table[p]].pins > 0
      modifies this`frames, this`logs
      ensures Valid() && View(p) == data && forall q :: q != p ==> View(q) == old(View(q))
      ensures PinnedStay(old(frames), old(table)) && logs == old(logs)
    {
      var f := table[p];
      assert LogAt(frames, logs, k, clock, f);
      Touch(f, frames[f].(data := data, dirty := true), logs[f]);
    }

    method Unpin(p: PageId) returns (ok: bool)
      requires Valid()
      modifies this`frames, this`logs
      ensures Valid() && (forall q :: View(q) == old(View(q))) && logs == old(logs)
      ensures ok <==> p in table && old(frames)[table[p]].pins > 0
      ensures frames == if !ok then old(frames)
        else var f := old(frames)[table[p]]; old(frames)[table[p] := f.(pins := f.pins - 1)]
    {
      ok := p in table && frames[table[p]].pins > 0;
      if ok {
        var f := frames[table[p]];
        assert LogAt(frames, logs, k, clock, table[p]);
        Touch(table[p], f.(pins := f.pins - 1), logs[table[p]]);
      }
    }

    /** `flush_page`. */
    method FlushPage(p: PageId)
      requires Valid()
      modifies this`frames, this`disk
      ensures Valid() && forall q :: View(q) == old(View(q))
      ensures p in table ==> OnDisk(disk, p, zero) == View(p)
      ensures PinnedStay(old(frames), old(table))
    {
      if p in table {
        var f := frames[table[p]];
        if f.dirty {
          FlushKeepsContent(frames, table, disk, zero, p);
          assert LogAt(frames, logs, k, clock, table[p]);
          LogsPut(frames, logs, k, clock, table[p], f.(dirty := false), logs[table[p]]);
          assert logs[table[p] := logs[table[p]]] == logs;
          disk := disk[p := f.data];
          frames := frames[table[p] := f.(dirty := false)];
        }
      }
    }

    /** `flush_all`: every dirty page is written, then every flag cleared. */
    method FlushAll()
      requires Valid()
      modifies this`frames, this`disk
      ensures Valid() && forall q :: View(q) == old(View(q))
      ensures forall p :: p in table ==> OnDisk(disk, p, zero) == View(p)
      ensures forall f :: 0 <= f < |frames| ==> !frames[f].dirty
      ensures PinnedStay(old(frames), old(table))
    {
      var newDisk := WriteDirty(frames, table, disk, zero);
      var newFrames := ClearFlags(frames);
      FlushAllKeepsContent(frames, table, disk, zero, newFrames, newDisk);
      forall f ensures LogAt(newFrames, logs, k, clock, f) { assert LogAt(frames, logs, k, clock, f); }
      frames, disk := newFrames, newDisk;
      forall p | p in table ensures OnDisk(disk, p, zero) == View(p) { assert !frames[table[p]].dirty; }
    }

    method NewThenDrop()
      requires Valid() && Allocated() && k >= 2 && SomeCold(frames, logs, k)
      modifies this
      ensures Valid() && Allocated() && nextPage == old(nextPage) + 1 && forall q :: View(q) == old(View(q))
      ensures SomeCold(frames, logs, k) && HotStay(old(frames), old(logs), frames, logs, k)
    {
      ghost var c :| 0 <= c < |frames| && c < |logs| && Cold(frames[c], logs[c], k);
      ghost var before, was, now := frames, logs, clock;
      var r, p := NewPage();
      assert before[c].pins == 0;
      ColdIsWorst(before, was, k, c, r.value);
      ghost var v := r.value;
      DropOne(p, v);
      HotStays(before, was, v, frames[v], [now], k);
    }

    /** The only pin of a page accessed once is dropped. */
    method DropOne(p: PageId, ghost v: nat)
      requires Valid() && Allocated() && k >= 2 && v < |frames| && frames[v].page == Some(p) && frames[v].pins == 1
      requires |logs[v]| == 1
      modifies this`frames, this`logs
      ensures Valid() && Allocated() && (forall q :: View(q) == old(View(q))) && logs == old(logs)
      ensures |frames| == |old(frames)| && frames == old(frames)[v := frames[v]] && SomeCold(frames, logs, k)
    {
      var ok := Unpin(p);
      assert Cold(frames[v], logs[v], k);
    }

    /** For k of at least two, a flood of new pages, each dropped at once, never evicts a
        page that was accessed k times, so long as there was one empty frame or one unpinned
        page accessed fewer times. */
    method Flood(n: nat)
      requires Valid() && Allocated() && k >= 2 && SomeCold(frames, logs, k)
      modifies this
      ensures Valid() && nextPage == old(nextPage) + n && forall q :: View(q) == old(View(q))
      ensures HotStay(old(frames), old(logs), frames, logs, k)
      ensures forall q :: q in old(table) && Hot(old(frames)[old(table)[q]], old(logs)[old(table)[q]], k) ==>
        q in table && table[q] == old(table)[q]
    {
      for i := 0 to n
        invariant Valid() && Allocated() && nextPage == old(nextPage) + i && forall q :: View(q) == old(View(q))
        invariant |frames| == |old(frames)| && SomeCold(frames, logs, k)
        invariant HotStay(old(frames), old(logs), frames, logs, k)
      {
        NewThenDrop();
      }
      forall q | q in old(table) && Hot(old(frames)[old(table)[q]], old(logs)[old(table)[q]], k)
        ensures q in table && table[q] == old(table)[q]
      {
        assert frames[old(table)[q]] == old(frames)[old(table)[q]];
      }
    }
  }

  /** Accessed at least k times since it was loaded. */
  predicate Hot(f: Frame, log: seq<nat>, k: nat) { f.page.Some? && |log| >= k }

  predicate Cold(f: Frame, log: seq<nat>, k: nat) { f.pins == 0 && (f.page == None || |log| < k) }

  ghost predicate SomeCold(frames: seq<Frame>, logs: seq<seq<nat>>, k: nat) {
    |frames| == |logs| && exists c :: 0 <= c < |frames| && Cold(frames[c], logs[c], k)
  }

  ghost predicate HotStay(before: seq<Frame>, was: seq<seq<nat>>, after: seq<Frame>, now: seq<seq<nat>>, k: nat) {
    && |before| == |was| == |after| == |now|
    && forall f :: 0 <= f < |before| && Hot(before[f], was[f], k) ==> after[f] == before[f] && now[f] == was[f]
  }

  /** With a cold frame about, the victim is cold. */
  lemma ColdIsWorst(frames: seq<Frame>, logs: seq<seq<nat>>, k: nat, c: nat, v: nat)
    requires k > 0 && c < |frames| == |logs| && Cold(frames[c], logs[c], k) && Worst(frames, logs, k, v)
    ensures !Hot(frames[v], logs[v], k)
  {
    if frames[v].page.Some? { assert frames[c].pins == 0; }
  }

  lemma HotStays(before: seq<Frame>, was: seq<seq<nat>>, v: nat, frame: Frame, log: seq<nat>, k: nat)
    requires v < |before| == |was| && !Hot(before[v], was[v], k)
    ensures HotStay(before, was, before[v := frame], was[v := log], k)
  {
  }

  /** A page that was fetched before its id was allocated, and is still resident when `new_page`
      hands that id out, ends up in two frames. */
  lemma NewOverFetched(frames: seq<Frame>, table: map<PageId, nat>, v: nat, p: PageId, frame: Frame)
    requires TableOk(frames, table) && p in table && v < |frames| && v != table[p] && frame.page == Some(p)
    ensures !TableOk(frames[v := frame], table[p := v])
  {
    var frames', table' := frames[v := frame], table[p := v];
    assert frames'[table[p]].page == Some(p) && table'[p] != table[p];
  }

  method WriteDirty(frames: seq<Frame>, ghost table: map<PageId, nat>, disk: map<PageId, Data>, ghost zero: Data)
    returns (r: map<PageId, Data>)
    requires TableOk(frames, table)
    ensures forall p ::
      OnDisk(r, p, zero) ==
      if p in table && frames[table[p]].dirty then frames[table[p]].data else OnDisk(disk, p, zero)
    ensures forall p :: p in r ==> p in disk || p in table
  {
    r := disk;
    for i := 0 to |frames|
      invariant forall p ::
        OnDisk(r, p, zero) ==
        if p in table && table[p] < i && frames[table[p]].dirty then frames[table[p]].data else OnDisk(disk, p, zero)
      invariant forall p :: p in r ==> p in disk || p in table
    {
      if frames[i].page.Some? && frames[i].dirty { r := r[frames[i].page.value := frames[i].data]; }
    }
  }

  method ClearFlags(frames: seq<Frame>) returns (r: seq<Frame>)
    ensures |r| == |frames| && forall f :: 0 <= f < |frames| ==> r[f] == frames[f].(dirty := false)
  {
    r := frames;
    for i := 0 to |frames|
      invariant |r| == |frames| && forall f :: 0 <= f < |frames| ==>
        r[f] == if f < i then frames[f].(dirty := false) else frames[f]
    {
      if r[i].dirty { r := r[i := r[i].(dirty := false)]; }
    }
  }

  lemma FlushAllKeepsContent(frames: seq<Frame>, table: map<PageId, nat>, disk: map<PageId, Data>, zero: Data,
                             frames': seq<Frame>, disk': map<PageId, Data>)
    requires TableOk(frames, table) && CleanOk(frames, disk, zero) && EmptyOk(frames, None)
    requires |frames'| == |frames| && forall f :: 0 <= f < |frames| ==> frames'[f] == frames[f].(dirty := false)
    requires forall p ::
      OnDisk(disk', p, zero) ==
      if p in table && frames[table[p]].dirty then frames[table[p]].data else OnDisk(disk, p, zero)
    ensures TableOk(frames', table) && CleanOk(frames', disk', zero) && EmptyOk(frames', None)
    ensures forall q :: Content(frames', table, disk', zero, q) == Content(frames, table, disk, zero, q)
  {
    forall f | 0 <= f < |frames'|
      ensures frames'[f].page == frames[f].page && frames'[f].data == frames[f].data
      ensures frames'[f].pins == frames[f].pins
    {
    }
    assert TableOk(frames', table);
  }
}
