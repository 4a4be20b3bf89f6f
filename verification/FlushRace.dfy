/** A reader probing an LSM tree place by place while a flush and compactions move
    versions under it.

    The flusher drains the active memtable into its hand while it holds the lock of the
    immutable slot, freezes the drained entries into the slot, adds them to level 0, clears
    the frozen table and empties the slot.  A compaction install replaces files of two
    adjacent levels by their merge in the lower one.  The reader probes the active memtable,
    the slot (waiting for its lock), then level after level. */
module FlushRace {
  import opened Keys
  import opened Mvcc
  import opened Merge
  import opened Lsm

  datatype Phase = Idle | Holding(hand: set<Entry>) | Frozen | Added | Cleared

  datatype State = State(active: set<Entry>, slot: Option<set<Entry>>, levels: seq<set<Entry>>, phase: Phase)

  /** Next place to probe: 0 the active memtable, 1 the slot, 2 + l level l. */
  datatype Reader = Reader(key: Key, readTs: Ts, next: nat, best: Option<Entry>)

  // ---------------------------------------------------------------- steps

  datatype Action =
    | Put(entry: Entry)
    | Drain | Freeze | AddSst | Clear | Reset
    | Install(level: nat, upper: set<Entry>, lower: set<Entry>, watermark: Ts)

  function Survivors(inputs: set<Entry>, watermark: Ts): set<Entry> {
    set e | e in inputs && Kept(inputs, e, watermark)
  }

  ghost predicate Step(s: State, a: Action, s': State) {
    match a
    case Put(e) => s' == s.(active := s.active + {e})
    case Drain => s.phase == Idle && s.slot == None && s' == s.(active := {}, phase := Holding(s.active))
    case Freeze => s.phase.Holding? && s' == s.(slot := Some(s.phase.hand), phase := Frozen)
    case AddSst =>
      && s.phase == Frozen && s.slot.Some? && s.levels != []
      && s' == s.(levels := s.levels[0 := s.levels[0] + s.slot.value], phase := Added)
    case Clear => s.phase == Added && s' == s.(slot := Some({}), phase := Cleared)
    case Reset => s.phase == Cleared && s' == s.(slot := None, phase := Idle)
    case Install(l, upper, lower, w) =>
      && l + 1 < |s.levels| && upper <= s.levels[l] && lower <= s.levels[l + 1]
      && var merged := (s.levels[l + 1] - lower) + Survivors(upper + lower, w);
         s' == s.(levels := s.levels[l := s.levels[l] - upper][l + 1 := merged])
  }

  /** Where the reader looks next; the slot only when nobody holds its lock. */
  ghost predicate Probes(s: State, r: Reader, r': Reader) {
    && r.next < 2 + |s.levels| && (r.next == 1 ==> !s.phase.Holding?)
    && exists found ::
         && IsNewest(found, Place(s, r.next), r.key, r.readTs)
         && r' == r.(next := r.next + 1, best := Better(r.best, found))
  }

  ghost function Place(s: State, i: nat): set<Entry>
    requires i < 2 + |s.levels|
  {
    if i == 0 then s.active
    else if i == 1 then (if s.slot.Some? then s.slot.value else {})
    else s.levels[i - 2]
  }

  /** Each move is a step of the store or a probe of the reader; installs use watermarks
      that respect the reader's snapshot. */
  ghost predicate Move(s: State, r: Reader, s': State, r': Reader) {
    || (r' == r && exists a :: Step(s, a, s') && (a.Install? ==> a.watermark <= r.readTs + 1))
    || (s' == s && Probes(s, r, r'))
  }

  ghost predicate Run(ss: seq<State>, rs: seq<Reader>) {
    && |ss| == |rs| > 0 && Quiet(ss[0])
    && forall i :: 0 <= i < |ss| - 1 ==> MoveAt(ss, rs, i)
  }

  ghost predicate MoveAt(ss: seq<State>, rs: seq<Reader>, i: nat)
    requires |ss| == |rs| && i + 1 < |ss|
  {
    Move(ss[i], rs[i], ss[i + 1], rs[i + 1])
  }

  ghost predicate Quiet(s: State) { s.phase == Idle && s.slot == None }

  // ---------------------------------------------------------------- where versions are

  /** A version of k with timestamp from lo up to readTs. */
  ghost predicate Has(es: set<Entry>, k: Key, lo: Ts, readTs: Ts) {
    exists e :: e in es && e.key == k && lo <= e.ts <= readTs
  }

  ghost predicate InLevels(levels: seq<set<Entry>>, from: nat, k: Key, lo: Ts, readTs: Ts) {
    exists l :: from <= l < |levels| && Has(levels[l], k, lo, readTs)
  }

  function Hand(s: State): set<Entry> { if s.phase.Holding? then s.phase.hand else {} }

  /** Such a version lies in a place the reader has yet to probe. */
  ghost predicate Ahead(s: State, next: nat, k: Key, lo: Ts, readTs: Ts) {
    || (next == 0 && Has(s.active, k, lo, readTs))
    || (next <= 1 && Has(Hand(s), k, lo, readTs))
    || (next <= 1 && s.slot.Some? && Has(s.slot.value, k, lo, readTs))
    || InLevels(s.levels, if next < 2 then 0 else next - 2, k, lo, readTs)
  }

  ghost predicate Found(r: Reader, lo: Ts) {
    r.best.Some? && r.best.value.ts >= lo
  }

  ghost predicate PhaseOk(s: State, k: Key, readTs: Ts) {
    && (s.phase == Idle ==> s.slot == None)
    && (s.phase.Holding? ==> s.slot == None)
    && (s.phase == Cleared ==> s.slot == Some({}))
    && (s.phase == Added ==> s.slot.Some? && forall x :: x in s.slot.value && Visible(x, k, readTs) ==>
          InLevels(s.levels, 0, k, x.ts, readTs))
  }

  // ---------------------------------------------------------------- steps of the store

  /** The survivors of a merge include one as new as any visible input. */
  lemma SurvivorAsNew(inputs: set<Entry>, x: Entry, k: Key, readTs: Ts, w: Ts)
    requires x in inputs && Visible(x, k, readTs) && w <= readTs + 1
    ensures Has(Survivors(inputs, w), k, x.ts, readTs)
  {
    var b := NewestExists(inputs, k, readTs);
    NewestIsKept(inputs, b.value, k, readTs, w);
    assert b.value in Survivors(inputs, w);
  }

  lemma InstallKeepsLevels(levels: seq<set<Entry>>, l: nat, upper: set<Entry>, lower: set<Entry>, w: Ts, from: nat,
                           k: Key, lo: Ts, readTs: Ts)
    requires l + 1 < |levels| && upper <= levels[l] && lower <= levels[l + 1] && w <= readTs + 1
    requires InLevels(levels, from, k, lo, readTs)
    ensures InLevels(levels[l := levels[l] - upper][l + 1 := (levels[l + 1] - lower) + Survivors(upper + lower, w)],
                     from, k, lo, readTs)
  {
    var out := Survivors(upper + lower, w);
    var levels' := levels[l := levels[l] - upper][l + 1 := (levels[l + 1] - lower) + out];
    var m :| from <= m < |levels| && Has(levels[m], k, lo, readTs);
    var x :| x in levels[m] && x.key == k && lo <= x.ts <= readTs;
    if (m == l && x in upper) || (m == l + 1 && x in lower) {
      SurvivorAsNew(upper + lower, x, k, readTs, w);
      var y :| y in out && y.key == k && x.ts <= y.ts <= readTs;
      assert y in levels'[l + 1];
      assert Has(levels'[l + 1], k, lo, readTs);
    } else {
      assert x in levels'[m];
      assert Has(levels'[m], k, lo, readTs);
    }
  }

  lemma AddKeepsLevels(levels: seq<set<Entry>>, more: set<Entry>, from: nat, k: Key, lo: Ts, readTs: Ts)
    requires levels != [] && InLevels(levels, from, k, lo, readTs)
    ensures InLevels(levels[0 := levels[0] + more], from, k, lo, readTs)
  {
    var m :| from <= m < |levels| && Has(levels[m], k, lo, readTs);
    var x :| x in levels[m] && x.key == k && lo <= x.ts <= readTs;
    assert x in levels[0 := levels[0] + more][m];
  }

  lemma StepKeepsPhase(s: State, a: Action, s': State, k: Key, readTs: Ts)
    requires PhaseOk(s, k, readTs) && Step(s, a, s') && (a.Install? ==> a.watermark <= readTs + 1)
    ensures PhaseOk(s', k, readTs)
  {
    if a.AddSst? {
      forall x | x in s'.slot.value && Visible(x, k, readTs) ensures InLevels(s'.levels, 0, k, x.ts, readTs) {
        assert x in s'.levels[0];
        assert Has(s'.levels[0], k, x.ts, readTs);
      }
    } else if a.Install? && s.phase == Added {
      forall x | x in s.slot.value && Visible(x, k, readTs) ensures InLevels(s'.levels, 0, k, x.ts, readTs) {
        InstallKeepsLevels(s.levels, a.level, a.upper, a.lower, a.watermark, 0, k, x.ts, readTs);
      }
    }
  }

  /** No step takes a needed version out of the places still to be probed. */
  lemma StepKeepsAhead(s: State, a: Action, s': State, next: nat, k: Key, lo: Ts, readTs: Ts)
    requires PhaseOk(s, k, readTs) && Step(s, a, s') && (a.Install? ==> a.watermark <= readTs + 1)
    requires Ahead(s, next, k, lo, readTs)
    ensures Ahead(s', next, k, lo, readTs)
  {
    var from := if next < 2 then 0 else next - 2;
    match a
    case Install(l, upper, lower, w) =>
      if InLevels(s.levels, from, k, lo, readTs) {
        InstallKeepsLevels(s.levels, l, upper, lower, w, from, k, lo, readTs);
      }
    case AddSst =>
      if InLevels(s.levels, from, k, lo, readTs) { AddKeepsLevels(s.levels, s.slot.value, from, k, lo, readTs); }
    case Clear =>
      if next <= 1 && Has(s.slot.value, k, lo, readTs) {
        var x :| x in s.slot.value && x.key == k && lo <= x.ts <= readTs;
        assert InLevels(s.levels, 0, k, x.ts, readTs);
        var l :| 0 <= l < |s.levels| && Has(s.levels[l], k, x.ts, readTs);
        assert Has(s.levels[l], k, lo, readTs);
      }
    case _ =>
  }

  // ---------------------------------------------------------------- probes

  lemma BetterFound(r: Reader, found: Option<Entry>, lo: Ts)
    requires Found(r, lo) || (found.Some? && found.value.ts >= lo)
    ensures Found(r.(best := Better(r.best, found)), lo)
  {
  }

  lemma ProbeKeeps(s: State, r: Reader, r': Reader, lo: Ts)
    requires PhaseOk(s, r.key, r.readTs) && Probes(s, r, r')
    requires Found(r, lo) || Ahead(s, r.next, r.key, lo, r.readTs)
    ensures Found(r', lo) || Ahead(s, r'.next, r.key, lo, r.readTs)
  {
    var found :| IsNewest(found, Place(s, r.next), r.key, r.readTs) &&
                 r' == r.(next := r.next + 1, best := Better(r.best, found));
    if Has(Place(s, r.next), r.key, lo, r.readTs) {
      var x :| x in Place(s, r.next) && x.key == r.key && lo <= x.ts <= r.readTs;
      assert Visible(x, r.key, r.readTs);
      assert found.Some? && found.value.ts >= lo;
      BetterFound(r, found, lo);
    } else if Found(r, lo) {
      BetterFound(r, found, lo);
    } else if r.next >= 2 {
      var l :| r.next - 2 <= l < |s.levels| && Has(s.levels[l], r.key, lo, r.readTs);
      assert l != r.next - 2;
    }
  }

  // ---------------------------------------------------------------- runs

  ghost predicate Present(s: State, v: Entry) {
    || v in s.active || v in Hand(s) || (s.slot.Some? && v in s.slot.value)
    || exists l :: 0 <= l < |s.levels| && v in s.levels[l]
  }

  lemma PresentAhead(s: State, v: Entry, readTs: Ts)
    requires Present(s, v) && v.ts <= readTs
    ensures Ahead(s, 0, v.key, v.ts, readTs)
  {
    if l :| 0 <= l < |s.levels| && v in s.levels[l] {
      assert Has(s.levels[l], v.key, v.ts, readTs);
    }
  }

  lemma MoveKeeps(s: State, r: Reader, s': State, r': Reader, lo: Ts)
    requires Move(s, r, s', r') && PhaseOk(s, r.key, r.readTs)
    ensures PhaseOk(s', r.key, r.readTs) && r'.key == r.key && r'.readTs == r.readTs && |s'.levels| == |s.levels|
    ensures Found(r, lo) || Ahead(s, r.next, r.key, lo, r.readTs) ==>
      Found(r', lo) || Ahead(s', r'.next, r.key, lo, r.readTs)
  {
    if s' == s && Probes(s, r, r') {
      if Found(r, lo) || Ahead(s, r.next, r.key, lo, r.readTs) { ProbeKeeps(s, r, r', lo); }
    } else {
      var a :| Step(s, a, s') && (a.Install? ==> a.watermark <= r.readTs + 1);
      StepKeepsPhase(s, a, s', r.key, r.readTs);
      if Ahead(s, r.next, r.key, lo, r.readTs) { StepKeepsAhead(s, a, s', r.next, r.key, lo, r.readTs); }
    }
  }

  lemma {:induction false} RunKeepsPhase(ss: seq<State>, rs: seq<Reader>, i: nat)
    requires Run(ss, rs) && i < |ss|
    ensures PhaseOk(ss[i], rs[i].key, rs[i].readTs) && rs[i].key == rs[0].key && rs[i].readTs == rs[0].readTs
    ensures |ss[i].levels| == |ss[0].levels|
    decreases i
  {
    if i > 0 {
      RunKeepsPhase(ss, rs, i - 1);
      assert MoveAt(ss, rs, i - 1);
      MoveKeeps(ss[i - 1], rs[i - 1], ss[i], rs[i], 0);
    }
  }

  lemma {:induction false} RunKeepsFound(ss: seq<State>, rs: seq<Reader>, i: nat, j: nat, lo: Ts)
    requires Run(ss, rs) && i <= j < |ss|
    requires Found(rs[i], lo) || Ahead(ss[i], rs[i].next, rs[i].key, lo, rs[i].readTs)
    ensures Found(rs[j], lo) || Ahead(ss[j], rs[j].next, rs[j].key, lo, rs[j].readTs)
    decreases j
  {
    if i < j {
      RunKeepsFound(ss, rs, i, j - 1, lo);
      RunKeepsPhase(ss, rs, j - 1);
      assert MoveAt(ss, rs, j - 1);
      MoveKeeps(ss[j - 1], rs[j - 1], ss[j], rs[j], lo);
    }
  }

  // ---------------------------------------------------------------- what the reader can have found

  /** Every version the store holds, wherever it is. */
  function Everything(s: State): set<Entry> {
    s.active + Hand(s) + (if s.slot.Some? then s.slot.value else {}) +
    (set l, e | 0 <= l < |s.levels| && e in s.levels[l] :: e)
  }

  lemma EverythingPresent(s: State, v: Entry)
    ensures v in Everything(s) <==> Present(s, v)
  {
  }

  /** The answer so far is a version the reader may see, and was there at some time since `i`. */
  ghost predicate Genuine(ss: seq<State>, r: Reader, i: nat, n: nat)
    requires i <= n < |ss|
  {
    r.best.Some? ==>
      Visible(r.best.value, r.key, r.readTs) && exists m :: i <= m <= n && Present(ss[m], r.best.value)
  }

  lemma ProbeGenuine(s: State, r: Reader, r': Reader)
    requires Probes(s, r, r')
    ensures r'.best == r.best || (r'.best.Some? && Visible(r'.best.value, r.key, r.readTs) && Present(s, r'.best.value))
  {
    var found :| IsNewest(found, Place(s, r.next), r.key, r.readTs) &&
                 r' == r.(next := r.next + 1, best := Better(r.best, found));
    if found.Some? && r.next >= 2 {
      assert found.value in s.levels[r.next - 2];
    }
  }

  lemma {:induction false} RunGenuine(ss: seq<State>, rs: seq<Reader>, i: nat, n: nat)
    requires Run(ss, rs) && i <= n < |ss| && rs[i].best == None
    ensures Genuine(ss, rs[n], i, n)
    decreases n
  {
    if i < n {
      RunGenuine(ss, rs, i, n - 1);
      RunKeepsPhase(ss, rs, n - 1);
      RunKeepsPhase(ss, rs, n);
      assert MoveAt(ss, rs, n - 1);
      if rs[n] != rs[n - 1] {
        ProbeGenuine(ss[n - 1], rs[n - 1], rs[n]);
      }
    }
  }

  /** Wherever drain, freeze, add, clear, reset and installs fall between its probes, a
      reader that has probed every place found a version of its key that it may see, that was
      in the store at some time since it started, and that is as new as any version of its
      key that was present, and visible to it, when it started. */
  lemma ReaderMissesNothing(ss: seq<State>, rs: seq<Reader>, i: nat, j: nat, v: Entry)
    requires Run(ss, rs) && i <= j < |ss|
    requires rs[i].next == 0 && rs[i].best == None && rs[j].next == 2 + |ss[j].levels|
    requires Present(ss[i], v) && Visible(v, rs[i].key, rs[i].readTs)
    ensures rs[j].best.Some? && rs[j].best.value.ts >= v.ts
    ensures Visible(rs[j].best.value, rs[i].key, rs[i].readTs)
    ensures exists m :: i <= m <= j && Present(ss[m], rs[j].best.value)
  {
    PresentAhead(ss[i], v, rs[i].readTs);
    RunKeepsFound(ss, rs, i, j, v.ts);
    RunGenuine(ss, rs, i, j);
    RunKeepsPhase(ss, rs, i);
    RunKeepsPhase(ss, rs, j);
  }

  // ---------------------------------------------------------------- the exact answer

  /** The active memtable gained no version the reader could see. */
  ghost predicate NoVisiblePut(s: State, s': State, k: Key, readTs: Ts) {
    forall e :: e in s'.active && Visible(e, k, readTs) ==> e in s.active
  }

  /** Nothing but a put brings a version into the store. */
  lemma StepBringsNothing(s: State, a: Action, s': State, k: Key, readTs: Ts, v: Entry)
    requires Step(s, a, s') && NoVisiblePut(s, s', k, readTs) && Visible(v, k, readTs) && Present(s', v)
    ensures Present(s, v)
  {
    if l :| 0 <= l < |s'.levels| && v in s'.levels[l] {
      assert l < |s.levels|;
      if v !in s.levels[l] && a.Install? {
        assert v in a.upper + a.lower && v in s.levels[a.level];
      }
    }
  }

  lemma MoveBringsNothing(ss: seq<State>, rs: seq<Reader>, n: nat, k: Key, readTs: Ts, v: Entry)
    requires Run(ss, rs) && n + 1 < |ss| && NoVisiblePut(ss[n], ss[n + 1], k, readTs)
    requires Visible(v, k, readTs) && Present(ss[n + 1], v)
    ensures Present(ss[n], v)
  {
    assert MoveAt(ss, rs, n);
    if ss[n + 1] != ss[n] {
      var a :| Step(ss[n], a, ss[n + 1]);
      StepBringsNothing(ss[n], a, ss[n + 1], k, readTs, v);
    }
  }

  lemma {:induction false} PresentBefore(ss: seq<State>, rs: seq<Reader>, i: nat, m: nat, k: Key, readTs: Ts, v: Entry)
    requires Run(ss, rs) && i <= m < |ss| && Visible(v, k, readTs) && Present(ss[m], v)
    requires forall n :: i <= n < m ==> NoVisiblePut(ss[n], ss[n + 1], k, readTs)
    ensures Present(ss[i], v)
    decreases m
  {
    if i < m {
      MoveBringsNothing(ss, rs, m - 1, k, readTs, v);
      PresentBefore(ss, rs, i, m - 1, k, readTs, v);
    }
  }

  /** The full answer.  If no version the reader could see was put meanwhile, it finds exactly
      the newest version, of its key and visible to it, of everything the store held when it
      started; and nothing if there was none. */
  lemma ReaderAnswersExactly(ss: seq<State>, rs: seq<Reader>, i: nat, j: nat)
    requires Run(ss, rs) && i <= j < |ss|
    requires rs[i].next == 0 && rs[i].best == None && rs[j].next == 2 + |ss[j].levels|
    requires forall n :: i <= n < j ==> NoVisiblePut(ss[n], ss[n + 1], rs[i].key, rs[i].readTs)
    ensures IsNewest(rs[j].best, Everything(ss[i]), rs[i].key, rs[i].readTs)
  {
    var k, readTs := rs[i].key, rs[i].readTs;
    RunKeepsPhase(ss, rs, i);
    RunKeepsPhase(ss, rs, j);
    RunGenuine(ss, rs, i, j);
    if rs[j].best.Some? {
      var m :| i <= m <= j && Present(ss[m], rs[j].best.value);
      PresentBefore(ss, rs, i, m, k, readTs, rs[j].best.value);
      EverythingPresent(ss[i], rs[j].best.value);
    }
    forall v | v in Everything(ss[i]) && Visible(v, k, readTs) ensures rs[j].best.Some? && v.ts <= rs[j].best.value.ts {
      EverythingPresent(ss[i], v);
      ReaderMissesNothing(ss, rs, i, j, v);
    }
  }
}
