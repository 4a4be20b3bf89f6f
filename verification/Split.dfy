/** Cutting a merged run into files of bounded size. */
module Split {
  import opened Keys
  import opened Mvcc

  function Sum(es: seq<Entry>, size: Entry -> nat): nat {
    if es == [] then 0 else Sum(es[..|es| - 1], size) + size(es[|es| - 1])
  }

  function Concat(out: seq<seq<Entry>>): seq<Entry> {
    if out == [] then [] else Concat(out[..|out| - 1]) + out[|out| - 1]
  }

  /** 4 KiB are left for index and footer, but never more than half the file. */
  function Budget(maxBytes: nat): nat {
    var spare := if maxBytes > 4096 then maxBytes - 4096 else 0;
    var b := if spare > maxBytes / 2 then spare else maxBytes / 2;
    if b > 1 then b else 1
  }

  /** A slice only goes on to another key if that key's first entry still fits. */
  ghost predicate Fits(slice: seq<Entry>, size: Entry -> nat, budget: nat) {
    slice != [] && (|slice| == 1 || (Fits(slice[..|slice| - 1], size, budget) &&
      (slice[|slice| - 1].key == slice[|slice| - 2].key || Sum(slice, size) <= budget)))
  }

  /** A cut falls between two keys, and only where the next entry did not fit. */
  ghost predicate CutBefore(a: seq<Entry>, next: Entry, size: Entry -> nat, budget: nat) {
    a != [] && a[|a| - 1].key != next.key && Sum(a, size) + size(next) > budget
  }

  ghost predicate Pieces(out: seq<seq<Entry>>, size: Entry -> nat, budget: nat) {
    out == [] ||
    (var front, last := out[..|out| - 1], out[|out| - 1];
     Pieces(front, size, budget) && Fits(last, size, budget) &&
     (front == [] || CutBefore(front[|front| - 1], last[0], size, budget)))
  }

  ghost predicate SplitOf(out: seq<seq<Entry>>, es: seq<Entry>, size: Entry -> nat, budget: nat) {
    Concat(out) == es && Pieces(out, size, budget)
  }

  lemma PushSlice(out: seq<seq<Entry>>, slice: seq<Entry>, size: Entry -> nat, budget: nat)
    requires Pieces(out, size, budget) && Fits(slice, size, budget)
    requires out == [] || CutBefore(out[|out| - 1], slice[0], size, budget)
    ensures Pieces(out + [slice], size, budget) && Concat(out + [slice]) == Concat(out) + slice
  {
    assert (out + [slice])[..|out|] == out;
    ConcatSnoc(out, slice);
  }

  lemma ConcatSnoc(out: seq<seq<Entry>>, slice: seq<Entry>)
    ensures Concat(out + [slice]) == Concat(out) + slice
  {
    assert (out + [slice])[..|out|] == out;
  }

  lemma SumSnoc(es: seq<Entry>, e: Entry, size: Entry -> nat)
    ensures Sum(es + [e], size) == Sum(es, size) + size(e)
  {
    assert (es + [e])[..|es|] == es;
  }

  /** One more entry at the end of a slice. */
  lemma FitsSnoc(slice: seq<Entry>, e: Entry, size: Entry -> nat, budget: nat)
    requires slice == [] || Fits(slice, size, budget)
    requires slice == [] || slice[|slice| - 1].key == e.key || Sum(slice, size) + size(e) <= budget
    ensures Fits(slice + [e], size, budget)
  {
    assert (slice + [e])[..|slice|] == slice;
    SumSnoc(slice, e, size);
  }

  /** So a slice is over budget only by entries of a single key, or by later versions of
      its last key. */
  lemma {:induction false} OverOnlyByOneKey(slice: seq<Entry>, size: Entry -> nat, budget: nat, i: nat)
    requires Fits(slice, size, budget) && 0 < i < |slice| && slice[i].key != slice[i - 1].key
    ensures Sum(slice[..i + 1], size) <= budget
    decreases |slice|
  {
    if i == |slice| - 1 {
      assert slice[..i + 1] == slice;
    } else {
      var front := slice[..|slice| - 1];
      assert front[..i + 1] == slice[..i + 1];
      OverOnlyByOneKey(front, size, budget, i);
    }
  }

  /** `split_entries_by_max_bytes`. */
  method SplitByMaxBytes(es: seq<Entry>, maxBytes: nat, size: Entry -> nat) returns (out: seq<seq<Entry>>)
    ensures es == [] ==> out == []
    ensures es != [] && maxBytes == 0 ==> out == [es]
    ensures maxBytes > 0 ==> SplitOf(out, es, size, Budget(maxBytes))
  {
    if es == [] { return []; }
    if maxBytes == 0 { return [es]; }
    out := SplitByBudget(es, Budget(maxBytes), size);
  }

  /** The scan over the entries; `slice` is the stretch since the last cut. */
  method SplitByBudget(es: seq<Entry>, budget: nat, size: Entry -> nat) returns (out: seq<seq<Entry>>)
    requires es != []
    ensures SplitOf(out, es, size, budget)
  {
    out := [];
    var slice, acc := [es[0]], size(es[0]);
    SingleSlice(es[0], size, budget);
    assert es[..1] == [es[0]];
    for i := 1 to |es|
      invariant Concat(out) + slice == es[..i] && Pieces(out, size, budget)
      invariant Fits(slice, size, budget) && acc == Sum(slice, size) && slice[|slice| - 1] == es[i - 1]
      invariant out != [] ==> CutBefore(out[|out| - 1], slice[0], size, budget)
    {
      var e := es[i];
      assert es[..i + 1] == es[..i] + [e];
      if e.key != es[i - 1].key && acc + size(e) > budget {
        PushSlice(out, slice, size, budget);
        out := out + [slice];
        slice, acc := [e], size(e);
        SingleSlice(e, size, budget);
      } else {
        SumSnoc(slice, e, size);
        FitsSnoc(slice, e, size, budget);
        assert (Concat(out) + slice) + [e] == Concat(out) + (slice + [e]);
        slice, acc := slice + [e], acc + size(e);
      }
    }
    assert es[..|es|] == es;
    PushSlice(out, slice, size, budget);
    out := out + [slice];
  }

  lemma SingleSlice(e: Entry, size: Entry -> nat, budget: nat)
    ensures Fits([e], size, budget) && Sum([e], size) == size(e)
  {
    assert [e] == [] + [e];
    SumSnoc([], e, size);
  }

  // ---------------------------------------------------------------- key ranges

  ghost predicate KeySorted(es: seq<Entry>) {
    forall i, j :: 0 <= i < j < |es| ==> es[i].key <= es[j].key
  }

  /** Slices of a sorted run have strictly ascending, disjoint key ranges. */
  lemma {:induction false} RangesAscend(out: seq<seq<Entry>>, size: Entry -> nat, budget: nat, s: nat, t: nat,
                                        a: Entry, b: Entry)
    requires Pieces(out, size, budget) && KeySorted(Concat(out))
    requires s < t < |out| && a in out[s] && b in out[t]
    ensures a.key < b.key
    decreases |out|
  {
    var es, front, last := Concat(out), out[..|out| - 1], out[|out| - 1];
    var n := |Concat(front)|;
    assert forall i :: 0 <= i < n ==> Concat(front)[i] == es[i];
    assert front[s] == out[s];
    if t < |out| - 1 {
      RangesAscend(front, size, budget, s, t, a, b);
    } else {
      var prev := front[|front| - 1];
      EndsWith(front);
      InConcat(front, s, a);
      var i :| 0 <= i < n && es[i] == a;
      var j :| 0 <= j < |last| && last[j] == b;
      assert es[n - 1] == prev[|prev| - 1] && es[n] == last[0] && es[n + j] == b;
      assert es[i].key <= es[n - 1].key && es[n].key <= es[n + j].key;
    }
  }

  lemma EndsWith(out: seq<seq<Entry>>)
    requires out != [] && out[|out| - 1] != []
    ensures var es, last := Concat(out), out[|out| - 1]; es != [] && es[|es| - 1] == last[|last| - 1]
  {
  }

  lemma {:induction false} InConcat(out: seq<seq<Entry>>, s: nat, a: Entry)
    requires s < |out| && a in out[s]
    ensures a in Concat(out)
    decreases |out|
  {
    if s < |out| - 1 {
      InConcat(out[..|out| - 1], s, a);
    }
  }
}
