/** One node's log and membership as the handlers update them. */
module Replica {
  import opened Membership

  /** What a request carrying `es` makes of the log: everything up to the first entry the
      log does not have, then the rest of the request; unchanged if it has them all. */
  function Merge(log: seq<Entry>, es: seq<Entry>): seq<Entry>
    requires forall i :: 0 <= i < |es| ==> es[i].index > 0
    requires es != [] ==> es[0].index <= |log| + 1
    requires forall i :: 0 < i < |es| ==> es[i].index == es[i - 1].index + 1
  {
    if es == [] then log
    else if es[0].index <= |log| && log[es[0].index - 1].term == es[0].term then Merge(log, es[1..])
    else log[..es[0].index - 1] + es
  }

  ghost predicate Consecutive(es: seq<Entry>, first: nat) {
    forall i :: 0 <= i < |es| ==> es[i].index == first + i
  }

  ghost predicate Has(log: seq<Entry>, e: Entry) {
    0 < e.index <= |log| && log[e.index - 1].term == e.term
  }

  /** Merging when the first d entries are there and the next, if any, is not. */
  lemma {:induction false} MergeAt(log: seq<Entry>, es: seq<Entry>, first: nat, d: nat)
    requires Consecutive(es, first) && 0 < first <= |log| + 1 && d <= |es|
    requires forall i :: 0 <= i < d ==> Has(log, es[i])
    requires d < |es| ==> !Has(log, es[d])
    ensures d < |es| ==> es[d].index - 1 <= |log|
    ensures Merge(log, es) == if d == |es| then log else log[..es[d].index - 1] + es[d..]
    decreases |es|
  {
    if d > 0 {
      assert Has(log, es[0]);
      assert es[1..][d - 1..] == es[d..];
      assert forall i :: 0 <= i < d - 1 ==> es[1..][i] == es[i + 1];
      MergeAt(log, es[1..], first + 1, d - 1);
    } else if es != [] {
      assert es[0..] == es;
    }
  }

  lemma AppendSlices(log: seq<Entry>, batch: seq<Entry>, i: nat)
    requires i <= |log|
    ensures (log + batch)[..i] == log[..i] && (log + batch)[i..] == log[i..] + batch
  {
  }

  lemma AppendNumbers(log: seq<Entry>, batch: seq<Entry>)
    requires (forall i :: 0 <= i < |log| ==> log[i].index == i + 1) && Consecutive(batch, |log| + 1)
    ensures forall i :: 0 <= i < |log + batch| ==> (log + batch)[i].index == i + 1
  {
  }

  /** A shorter log, given by what is kept after the snapshot. */
  lemma CutSlices(log: seq<Entry>, shorter: seq<Entry>, from: nat, kept: seq<Entry>, i: nat)
    requires from <= |shorter| && shorter <= log && shorter == log[..from] + kept
    ensures kept == shorter[from..] && (Numbered(log) ==> Numbered(shorter))
    ensures i <= |shorter| ==> shorter[..i] == log[..i]
    ensures 0 < from ==> shorter[from - 1] == log[from - 1]
  {
  }

  lemma Stretch(log: seq<Entry>, from: nat, i: nat, j: nat)
    requires from <= i <= j <= |log|
    ensures log[..j] == log[..i] + log[from..][i - from..j - from]
  {
  }

  /** Configuration changes take effect in order. */
  method TakeEffect(m: Members, batch: seq<Entry>) returns (r: Members)
    ensures r == Fold(m, batch)
  {
    r := m;
    for i := 0 to |batch|
      invariant r == Fold(m, batch[..i])
    {
      assert batch[..i + 1] == batch[..i] + [batch[i]];
      FoldSnoc(m, batch[..i], batch[i]);
      r := Apply(r, batch[i].command);
    }
    assert batch[..|batch|] == batch;
  }

  // ---------------------------------------------------------------- the loop over a request

  /** Where the loop stands: the log as it is, the live membership, the entries to append at
      the end, whether the log was cut, and whether a gap was met. */
  datatype Scanning = Scanning(log: seq<Entry>, live: Members, pending: seq<Entry>, cut: bool, refused: bool)

  /** One entry, for whatever indices a request carries.  Entries under the snapshot and
      entries the log has are skipped; a conflict writes what is pending and cuts the log; an
      entry that leaves a gap ends the loop. */
  function Next(snap: nat, s: Scanning, e: Entry): Scanning {
    if s.refused || e.index <= snap then s
    else if e.index <= |s.log| then
      if s.log[e.index - 1].term == e.term then s
      else Scanning(s.log[..e.index - 1], Fold(s.live, s.pending), [e], true, false)
    else if e.index == |s.log| + 1 + |s.pending| then s.(pending := s.pending + [e])
    else s.(refused := e.index > |s.log| + 1 + |s.pending|)
  }

  function ScanAll(snap: nat, s: Scanning, es: seq<Entry>): Scanning {
    if es == [] then s else Next(snap, ScanAll(snap, s, es[..|es| - 1]), es[|es| - 1])
  }

  lemma ScanSnoc(snap: nat, s: Scanning, es: seq<Entry>, k: nat)
    requires k < |es|
    ensures ScanAll(snap, s, es[..k + 1]) == Next(snap, ScanAll(snap, s, es[..k]), es[k])
  {
    assert es[..k + 1][..k] == es[..k];
  }

  /** Whatever a request carries, the log keeps its numbering and its compacted prefix. */
  ghost predicate Numbered(log: seq<Entry>) {
    forall i :: 0 <= i < |log| ==> log[i].index == i + 1
  }

  /** What the loop keeps, for a log it found as `log`. */
  ghost predicate Tidy(s: Scanning, snap: nat, log: seq<Entry>, live: Members) {
    && snap <= |s.log| && s.log <= log && Consecutive(s.pending, |s.log| + 1)
    && (!s.cut ==> s.log == log && s.live == live)
  }

  lemma {:induction false} ScanIsTidy(snap: nat, log: seq<Entry>, live: Members, es: seq<Entry>)
    requires snap <= |log|
    ensures Tidy(ScanAll(snap, Scanning(log, live, [], false, false), es), snap, log, live)
    decreases |es|
  {
    if es != [] {
      ScanIsTidy(snap, log, live, es[..|es| - 1]);
      NextIsTidy(snap, ScanAll(snap, Scanning(log, live, [], false, false), es[..|es| - 1]), es[|es| - 1], log, live);
    }
  }

  lemma NextIsTidy(snap: nat, s: Scanning, e: Entry, log: seq<Entry>, live: Members)
    requires Tidy(s, snap, log, live)
    ensures Tidy(Next(snap, s, e), snap, log, live)
  {
  }

  /** The first `d` entries are there and the next is not: what the loop then knows. */
  ghost predicate ScannedTo(s: Scanning, log: seq<Entry>, es: seq<Entry>, first: nat, d: nat, k: nat)
    requires d <= k <= |es| && first + d <= |log| + 1 && first > 0
  {
    && !s.refused && s.pending == es[d..k]
    && (if d == k then s.log == log && !s.cut else s.log == log[..first + d - 1] && (s.cut <==> first + d - 1 < |log|))
  }

  lemma ScanStep(snap: nat, s: Scanning, log: seq<Entry>, es: seq<Entry>, first: nat, d: nat, k: nat)
    requires Consecutive(es, first) && first > 0 && d <= k < |es| && first + d <= |log| + 1 && snap <= |log|
    requires es[k].index <= snap ==> Has(log, es[k])
    requires ScannedTo(s, log, es, first, d, k) && (d < k ==> !Has(log, es[d]) && snap < first + d)
    ensures d == k && Has(log, es[k]) ==> ScannedTo(Next(snap, s, es[k]), log, es, first, k + 1, k + 1)
    ensures !(d == k && Has(log, es[k])) ==> ScannedTo(Next(snap, s, es[k]), log, es, first, d, k + 1)
  {
    assert es[k].index == first + k;
    assert es[d..k + 1] == es[d..k] + [es[k]];
  }

  /** The loop has found the first of the entries up to `k` that is missing, if any is. */
  ghost predicate Located(snap: nat, s: Scanning, log: seq<Entry>, es: seq<Entry>, first: nat, k: nat)
    requires k <= |es| && first > 0
  {
    exists d :: LocatedAt(snap, s, log, es, first, d, k)
  }

  ghost predicate LocatedAt(snap: nat, s: Scanning, log: seq<Entry>, es: seq<Entry>, first: nat, d: nat, k: nat)
    requires k <= |es| && first > 0
  {
    && d <= k && first + d <= |log| + 1 && (forall i :: 0 <= i < d ==> Has(log, es[i]))
    && (d < k ==> !Has(log, es[d]) && snap < first + d)
    && ScannedTo(s, log, es, first, d, k)
  }

  lemma LocateNext(snap: nat, s: Scanning, log: seq<Entry>, es: seq<Entry>, first: nat, k: nat)
    requires Consecutive(es, first) && 0 < first <= |log| + 1 && k < |es| && snap <= |log|
    requires es[k].index <= snap ==> Has(log, es[k])
    requires Located(snap, s, log, es, first, k)
    ensures Located(snap, Next(snap, s, es[k]), log, es, first, k + 1)
  {
    var d :| LocatedAt(snap, s, log, es, first, d, k);
    ScanStep(snap, s, log, es, first, d, k);
    assert es[k].index == first + k;
    if d == k && Has(log, es[k]) {
      assert LocatedAt(snap, Next(snap, s, es[k]), log, es, first, k + 1, k + 1);
    } else {
      assert LocatedAt(snap, Next(snap, s, es[k]), log, es, first, d, k + 1);
    }
  }

  /** On the consecutive entries a leader sends, the loop finds the first entry that is missing. */
  lemma {:induction false} ScanConsecutive(snap: nat, start: Scanning, log: seq<Entry>, es: seq<Entry>, first: nat,
                                           k: nat)
    requires Consecutive(es, first) && 0 < first <= |log| + 1 && snap <= |log| && k <= |es|
    requires start == Scanning(log, start.live, [], false, false)
    requires forall i :: 0 <= i < |es| && es[i].index <= snap ==> Has(log, es[i])
    ensures Located(snap, ScanAll(snap, start, es[..k]), log, es, first, k)
    decreases k
  {
    if k == 0 {
      assert LocatedAt(snap, start, log, es, first, 0, 0);
    } else {
      ScanConsecutive(snap, start, log, es, first, k - 1);
      ScanSnoc(snap, start, es, k - 1);
      LocateNext(snap, ScanAll(snap, start, es[..k - 1]), log, es, first, k - 1);
    }
  }

  /** For a leader's request the loop and the final append give the merge of log and request. */
  lemma ScanIsMerge(snap: nat, log: seq<Entry>, live: Members, es: seq<Entry>, first: nat)
    requires Consecutive(es, first) && 0 < first <= |log| + 1 && snap <= |log|
    requires forall i :: 0 <= i < |es| && es[i].index <= snap ==> Has(log, es[i])
    ensures var s := ScanAll(snap, Scanning(log, live, [], false, false), es);
      !s.refused && Merge(log, es) == s.log + s.pending &&
      (s.cut ==> exists e :: e in es && !Has(log, e) && |s.log| == e.index - 1)
  {
    var start := Scanning(log, live, [], false, false);
    assert es[..|es|] == es;
    ScanConsecutive(snap, start, log, es, first, |es|);
    var d :| LocatedAt(snap, ScanAll(snap, start, es), log, es, first, d, |es|);
    ScannedIsMerge(ScanAll(snap, start, es), log, es, first, d);
  }

  lemma ScannedIsMerge(s: Scanning, log: seq<Entry>, es: seq<Entry>, first: nat, d: nat)
    requires Consecutive(es, first) && 0 < first <= |log| + 1 && d <= |es| && first + d <= |log| + 1
    requires (forall i :: 0 <= i < d ==> Has(log, es[i])) && (d < |es| ==> !Has(log, es[d]))
    requires ScannedTo(s, log, es, first, d, |es|)
    ensures !s.refused && Merge(log, es) == s.log + s.pending
    ensures s.cut ==> exists e :: e in es && !Has(log, e) && |s.log| == e.index - 1
  {
    MergeAt(log, es, first, d);
    assert es[d..|es|] == es[d..];
    if d < |es| {
      var e := es[d];
      assert e in es && e.index == first + d;
      assert s.log == log[..e.index - 1] && s.pending == es[d..];
    } else {
      assert s.pending == [] && log + [] == log;
    }
  }

  /** A request that contradicts entry `c` and then leaves a gap cuts the log there and is
      refused before anything is rebuilt: the live membership still counts what was cut. */
  lemma GapAfterCut(start: Members, log: seq<Entry>, snap: nat, c: nat, term: nat)
    requires snap < c <= |log| && log[c - 1].term != term && Fold(start, log[..c - 1]) != Fold(start, log)
    ensures var es := [Entry(term, c, Other), Entry(term, c + 2, Other)];
      var s := ScanAll(snap, Scanning(log, Fold(start, log), [], false, false), es);
      s.refused && s.cut && s.log == log[..c - 1] && s.live != Fold(start, s.log)
  {
    var es, s0 := [Entry(term, c, Other), Entry(term, c + 2, Other)], Scanning(log, Fold(start, log), [], false, false);
    ScanSnoc(snap, s0, es, 0);
    ScanSnoc(snap, s0, es, 1);
    assert es[..2] == es && es[..0] == [];
  }

  /** The loop on the entries after the snapshot. */
  method Scan(entries: seq<Entry>, snapshotIndex: nat, live: Members, es: seq<Entry>, ghost log: seq<Entry>)
    returns (entries': seq<Entry>, live': Members, pending: seq<Entry>, cut: bool, refused: bool)
    requires snapshotIndex <= |log| && entries == log[snapshotIndex..] && Numbered(log)
    ensures log[..snapshotIndex] + entries' == ScanAll(snapshotIndex, Scanning(log, live, [], false, false), es).log
    ensures Scanning(log[..snapshotIndex] + entries', live', pending, cut, refused) ==
            ScanAll(snapshotIndex, Scanning(log, live, [], false, false), es)
  {
    ghost var start := Scanning(log, live, [], false, false);
    entries', live', pending, cut, refused := entries, live, [], false, false;
    assert log[..snapshotIndex] + entries == log;
    for k := 0 to |es|
      invariant Scanning(log[..snapshotIndex] + entries', live', pending, cut, refused) ==
                ScanAll(snapshotIndex, start, es[..k])
    {
      ScanSnoc(snapshotIndex, start, es, k);
      var e := es[k];
      var last := snapshotIndex + |entries'|;
      if !refused && e.index > snapshotIndex {
        ghost var now := log[..snapshotIndex] + entries';
        assert e.index <= last ==> now[e.index - 1] == entries'[e.index - snapshotIndex - 1];
        if e.index <= last {
          if entries'[e.index - snapshotIndex - 1].term != e.term {
            assert now[..e.index - 1] == log[..snapshotIndex] + entries'[..e.index - snapshotIndex - 1];
            live' := TakeEffect(live', pending);
            entries', pending, cut := entries'[..e.index - snapshotIndex - 1], [e], true;
          }
        } else if e.index == last + 1 + |pending| {
          pending := pending + [e];
        } else if e.index > last + 1 + |pending| {
          refused := true;
        }
      }
    }
    assert es[..|es|] == es;
  }

  /** What is stored after the snapshot is the rest of the log. */
  ghost predicate StoredOk(snapshotIndex: nat, snapshotTerm: nat, entries: seq<Entry>, applied: nat, log: seq<Entry>) {
    && snapshotIndex <= applied <= |log| && entries == log[snapshotIndex..]
    && Numbered(log)
    && (snapshotIndex > 0 ==> log[snapshotIndex - 1].term == snapshotTerm)
  }

  lemma CutIsStored(from: nat, term: nat, entries: seq<Entry>, i: nat, log: seq<Entry>, shorter: seq<Entry>,
                    kept: seq<Entry>)
    requires StoredOk(from, term, entries, i, log) && from <= |shorter| && shorter <= log &&
             shorter == log[..from] + kept
    ensures i <= |shorter| ==> StoredOk(from, term, kept, i, shorter) && shorter[..i] == log[..i]
  {
    CutSlices(log, shorter, from, kept, i);
  }

  lemma AppendStored(snapshotIndex: nat, snapshotTerm: nat, entries: seq<Entry>, applied: nat, log: seq<Entry>,
                     batch: seq<Entry>)
    requires StoredOk(snapshotIndex, snapshotTerm, entries, applied, log) && Consecutive(batch, |log| + 1)
    ensures StoredOk(snapshotIndex, snapshotTerm, entries + batch, applied, log + batch)
    ensures applied <= |log| && (log + batch)[..applied] == log[..applied]
  {
    AppendSlices(log, batch, applied);
    AppendSlices(log, batch, snapshotIndex);
    AppendNumbers(log, batch);
  }

  class Node {
    var snapshotIndex: nat
    var snapshotTerm: nat
    var entries: seq<Entry>            // those after the snapshot
    var applied: nat
    var base: Members
    var live: Members
    ghost var log: seq<Entry>          // the whole log, compacted prefix included
    ghost const start: Members

    ghost predicate LogOk()
      reads this
    {
      StoredOk(snapshotIndex, snapshotTerm, entries, applied, log)
    }

    /** Live membership is the fold over the whole log, the base that over the applied part. */
    ghost predicate Valid()
      reads this
    {
      LogOk() && base == Fold(start, log[..applied]) && live == Fold(start, log)
    }

    /** Both memberships, read off the log: the live one off all of it, the base off what is applied. */
    lemma MembersExact()
      requires Valid()
      ensures Reflects(live, start, log) && Reflects(base, start, log[..applied])
    {
      FoldReflects(start, log);
      FoldReflects(start, log[..applied]);
    }

    constructor (members: Members)
      ensures Valid() && log == [] && start == members && live == members
    {
      snapshotIndex, snapshotTerm, entries, applied, base, live := 0, 0, [], 0, members, members;
      log, start := [], members;
    }

    function LastIndex(): nat
      reads this
    {
      snapshotIndex + |entries|
    }

    /** The term at an index, unknown below the snapshot and beyond the end. */
    function HasTerm(index: nat, term: nat): (b: bool)
      requires LogOk()
      reads this
      ensures b <==> if index == 0 then term == 0 else snapshotIndex <= index <= |log| && log[index - 1].term == term
    {
      if index == 0 then term == 0
      else if index == snapshotIndex then term == snapshotTerm
      else snapshotIndex < index <= LastIndex() && entries[index - snapshotIndex - 1].term == term
    }

    /** Appends a batch and gives its configuration changes immediate effect: the tail of
        both the leader's flush and the follower's append. */
    method Append(batch: seq<Entry>)
      modifies this`entries, this`live, this`log
      ensures entries == old(entries) + batch && live == Fold(old(live), batch) && log == old(log) + batch
      ensures Reflects(live, old(live), batch)
      ensures old(Valid()) && Consecutive(batch, |old(log)| + 1) ==> Valid()
    {
      var members := TakeEffect(live, batch);
      FoldReflects(live, batch);
      if Valid() && Consecutive(batch, |log| + 1) {
        AppendStored(snapshotIndex, snapshotTerm, entries, applied, log, batch);
        FoldAppend(start, log, batch);
      }
      entries, live, log := entries + batch, members, log + batch;
    }

    /** `rebuild_membership_from_log`. */
    method Rebuild()
      modifies this`live
      ensures live == Fold(base, entries) && Reflects(live, base, entries)
      ensures LogOk() && base == Fold(start, log[..applied]) ==> Valid() && Reflects(live, start, log)
    {
      live := TakeEffect(base, entries);
      FoldReflects(base, entries);
      FoldReflects(start, log);
      if LogOk() { RebuildIsExact(start, log, snapshotIndex, applied); }
    }

    /** `apply_committed_to`: the base follows the entries applied. */
    method ApplyThrough(commit: nat)
      requires Valid()
      modifies this`applied, this`base
      ensures Valid()
      ensures applied == if commit <= old(applied) then old(applied) else if commit <= |log| then commit else |log|
      ensures Reflects(base, start, log[..applied])
    {
      var target := if commit <= LastIndex() then commit else LastIndex();
      if target > applied {
        var batch := entries[applied - snapshotIndex..target - snapshotIndex];
        Stretch(log, snapshotIndex, applied, target);
        FoldAppend(start, log[..applied], batch);
        base := TakeEffect(base, batch);
        applied := target;
      }
      FoldReflects(start, log[..applied]);
    }

    /** `compact_through` the applied index. */
    method Compact()
      requires Valid()
      modifies this`snapshotIndex, this`snapshotTerm, this`entries
      ensures Valid() && snapshotIndex == applied
    {
      if applied > snapshotIndex {
        snapshotTerm := entries[applied - snapshotIndex - 1].term;
        entries := entries[applied - snapshotIndex..];
        snapshotIndex := applied;
      }
    }

    /** `term_at` finds the entry before the request, or there is none to find. */
    ghost predicate Matches(prevIndex: nat, prevTerm: nat)
      reads this
    {
      prevIndex == 0 || (snapshotIndex <= prevIndex <= |log| && log[prevIndex - 1].term == prevTerm)
    }

    ghost function Scanned(es: seq<Entry>): Scanning
      reads this
    {
      ScanAll(snapshotIndex, Scanning(log, live, [], false, false), es)
    }

    /** `handle_append_entries` once the term is settled, for any request.  The memberships stay
        right unless the log was cut and then a gap met, or was cut below an applied entry;
        a leader's request does neither, and leaves the merge of log and request. */
    method HandleAppend(prevIndex: nat, prevTerm: nat, es: seq<Entry>) returns (ok: bool)
      requires Valid()
      modifies this`entries, this`live, this`log
      ensures var s := old(Scanned(es));
        && (ok <==> old(Matches(prevIndex, prevTerm)) && !s.refused)
        && log == (if !old(Matches(prevIndex, prevTerm)) then old(log)
                   else if s.refused then s.log else s.log + s.pending)
        && ((s.cut ==> !s.refused && applied <= |s.log|) || !old(Matches(prevIndex, prevTerm)) ==> Valid())
        && (old(Matches(prevIndex, prevTerm)) && s.refused ==> live == s.live)
      ensures old(Matches(prevIndex, prevTerm)) && old(FromLeader(prevIndex, es)) ==>
        ok && Valid() && log == Merge(old(log), es)
    {
      if prevIndex > 0 && !HasTerm(prevIndex, prevTerm) { return false; }
      ghost var s := Scanned(es);
      ScanIsTidy(snapshotIndex, log, live, es);
      if FromLeader(prevIndex, es) { LeaderScan(prevIndex, es); }
      var kept, members, pending, cut, refused := Scan(entries, snapshotIndex, live, es, log);
      if refused {
        Refuse(kept, members, s);
        return false;
      }
      Finish(kept, members, pending, cut, s);
      ok := true;
    }

    /** What a leader sends: consecutive entries, none of which contradicts an applied one. */
    ghost predicate FromLeader(prevIndex: nat, es: seq<Entry>)
      reads this
    {
      Consecutive(es, prevIndex + 1) && forall i :: 0 <= i < |es| && es[i].index <= applied ==> Has(log, es[i])
    }

    lemma LeaderScan(prevIndex: nat, es: seq<Entry>)
      requires Valid() && FromLeader(prevIndex, es) && prevIndex <= |log|
      ensures var s := Scanned(es); !s.refused && Merge(log, es) == s.log + s.pending && (s.cut ==> applied <= |s.log|)
    {
      ScanIsMerge(snapshotIndex, log, live, es, prevIndex + 1);
    }

    /** A gap ends the request on the spot: what was cut stays cut, and nothing is rebuilt. */
    method Refuse(kept: seq<Entry>, members: Members, ghost s: Scanning)
      requires Valid() && s.log == log[..snapshotIndex] + kept && s.live == members && Tidy(s, snapshotIndex, log, live)
      modifies this`entries, this`live, this`log
      ensures log == s.log && live == s.live && (!s.cut ==> Valid())
    {
      CutIsStored(snapshotIndex, snapshotTerm, entries, applied, log, s.log, kept);
      entries, live, log := kept, members, s.log;
    }

    /** `truncate_after` and the rebuild that follows it. */
    method CutTo(kept: seq<Entry>, members: Members, ghost shorter: seq<Entry>)
      requires Valid() && snapshotIndex <= |shorter| && shorter <= log && shorter == log[..snapshotIndex] + kept
      modifies this`entries, this`live, this`log
      ensures log == shorter && entries == kept
      ensures applied <= |shorter| ==> Valid()
    {
      CutIsStored(snapshotIndex, snapshotTerm, entries, applied, log, shorter, kept);
      entries, live, log := kept, members, shorter;
      Rebuild();
    }

    /** The end of a request without a gap: the cut log, the rebuilt membership, the new entries. */
    method Finish(kept: seq<Entry>, members: Members, pending: seq<Entry>, cut: bool, ghost s: Scanning)
      requires Valid() && s == Scanning(log[..snapshotIndex] + kept, members, pending, cut, false)
      requires Tidy(s, snapshotIndex, log, live)
      modifies this`entries, this`live, this`log
      ensures log == s.log + s.pending
      ensures (cut ==> applied <= |s.log|) ==> Valid()
    {
      if cut { CutTo(kept, members, s.log); }
      Append(pending);
    }
  }
}
