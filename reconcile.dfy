/** What `display_monitors` does to the window table when a display channel
    reports its monitor list: records for monitors below the reported count are
    created when missing, records at or above it are removed, one disable and
    one commit per removed record. */
module Reconcile {
  import opened Wrappers
  import opened SessionApi
  import opened WindowTable

  /** The new content of slot `k` after channel `id` reported `len` monitors
      through channel object `display`. */
  function ReconciledSlot(s: Option<Window>, k: nat, display: ChannelRef, id: nat, len: nat): Option<Window> {
    if id < ChannelIdMax && SlotChannel(k) == id then
      if SlotMonitor(k) < len then
        if s.Some? then s else Some(NewWindow(display, id, SlotMonitor(k)))
      else None
    else s
  }

  /** The table after the report, slot by slot. */
  function Reconciled(t: Table, display: ChannelRef, id: nat, len: nat): (r: Table)
    requires |t| == TableSize
    ensures |r| == TableSize
  {
    seq(TableSize, k requires 0 <= k < TableSize => ReconciledSlot(t[k], k, display, id, len))
  }

  /** The first loop of `display_monitors` after visiting monitors `0..n-1`:
      each missing record is created and added. */
  function CreatePass(t: Table, display: ChannelRef, id: nat, n: nat): (r: Table)
    requires |t| == TableSize
    ensures |r| == TableSize
    decreases n
  {
    if n == 0 then t
    else
      var p := CreatePass(t, display, id, n - 1);
      if Lookup(p, id, n - 1).None? then Inserted(p, Some(NewWindow(display, id, n - 1))) else p
  }

  /** The second loop after visiting monitors `lo..hi-1`: whatever record
      `get_window` finds is handed to `del_window`. */
  function DeletePass(t: Table, id: nat, lo: nat, hi: nat): (r: Table)
    requires |t| == TableSize
    ensures |r| == TableSize
    decreases hi
  {
    if hi <= lo then t
    else
      var p := DeletePass(t, id, lo, hi - 1);
      Removed(p, Lookup(p, id, hi - 1))
  }

  /** After the first loop has visited `0..n-1`, exactly the empty slots of
      those monitors of channel `id` (within bounds) hold new records. */
  lemma {:induction false} CreatePassSlot(t: Table, display: ChannelRef, id: nat, n: nat, k: nat)
    requires |t| == TableSize && k < TableSize
    ensures CreatePass(t, display, id, n)[k] ==
      if id < ChannelIdMax && SlotChannel(k) == id && SlotMonitor(k) < n && t[k].None?
      then Some(NewWindow(display, id, SlotMonitor(k))) else t[k]
  {
    SlotUnpacking(k);
    if n > 0 {
      var p := CreatePass(t, display, id, n - 1);
      CreatePassSlot(t, display, id, n - 1, k);
      if InBounds(id, n - 1) {
        SlotPacking(id, n - 1);
        CreatePassSlot(t, display, id, n - 1, Slot(id, n - 1));
      }
    }
  }

  /** The first loop keeps the table invariant. */
  lemma {:induction false} CreatePassWellFormed(t: Table, display: ChannelRef, id: nat, n: nat)
    requires WellFormed(t)
    ensures WellFormed(CreatePass(t, display, id, n))
  {
    if n > 0 {
      var p := CreatePass(t, display, id, n - 1);
      CreatePassWellFormed(t, display, id, n - 1);
      InsertedFrame(p, Some(NewWindow(display, id, n - 1)));
    }
  }

  /** After the second loop has visited `lo..hi-1` (within the bound), exactly
      the slots of those monitors of channel `id` are empty. */
  lemma {:induction false} DeletePassSlot(t: Table, id: nat, lo: nat, hi: nat, k: nat)
    requires WellFormed(t) && hi <= MonitorIdMax && k < TableSize
    ensures DeletePass(t, id, lo, hi)[k] ==
      if id < ChannelIdMax && SlotChannel(k) == id && lo <= SlotMonitor(k) < hi then None else t[k]
  {
    SlotUnpacking(k);
    if hi > lo {
      var p := DeletePass(t, id, lo, hi - 1);
      DeletePassSlot(t, id, lo, hi - 1, k);
      if id < ChannelIdMax {
        SlotPacking(id, hi - 1);
        DeletePassSlot(t, id, lo, hi - 1, Slot(id, hi - 1));
        assert Lookup(p, id, hi - 1) == Lookup(t, id, hi - 1);
      }
    }
  }

  /** The two loops together produce the reconciled table. */
  lemma PassesReconcile(t: Table, display: ChannelRef, id: nat, len: nat)
    requires WellFormed(t)
    ensures WellFormed(CreatePass(t, display, id, len))
    ensures DeletePass(CreatePass(t, display, id, len), id, len, MonitorIdMax) == Reconciled(t, display, id, len)
  {
    var t1 := CreatePass(t, display, id, len);
    CreatePassWellFormed(t, display, id, len);
    forall k | 0 <= k < TableSize
      ensures DeletePass(t1, id, len, MonitorIdMax)[k] == Reconciled(t, display, id, len)[k]
    {
      SlotUnpacking(k);
      CreatePassSlot(t, display, id, len, k);
      DeletePassSlot(t1, id, len, MonitorIdMax, k);
    }
  }

  /** While the second loop runs, the monitor it is about to visit still
      holds the record it held before the loop. */
  lemma DeletePassUntouched(t: Table, id: nat, lo: nat, i: nat)
    requires WellFormed(t) && lo <= i < MonitorIdMax
    ensures Lookup(DeletePass(t, id, lo, i), id, i) == Lookup(t, id, i)
  {
    if id < ChannelIdMax {
      SlotPacking(id, i);
      DeletePassSlot(t, id, lo, i, Slot(id, i));
    }
  }

  /** The calls made while removing the records of monitors `lo..hi-1` of
      channel `id`: `del_window(get_window(id, i))` for each `i` in turn. */
  function DisableRange(t: Table, id: nat, lo: nat, hi: nat): seq<Command>
    requires |t| == TableSize
    decreases hi
  {
    if hi <= lo then [] else DisableRange(t, id, lo, hi - 1) + RemoveCommands(Lookup(t, id, hi - 1))
  }

  /** The calls made by the whole report. */
  function ReconcileCommands(t: Table, id: nat, len: nat): seq<Command>
    requires |t| == TableSize
  {
    DisableRange(t, id, len, MonitorIdMax)
  }

  /** The monitors of channel `id` in `lo..hi-1` that hold a record. */
  function StaleMonitors(t: Table, id: nat, lo: nat, hi: nat): set<nat>
    requires |t| == TableSize
  {
    set i: nat | lo <= i < hi && Lookup(t, id, i).Some?
  }

  /** After the report, for a channel within bounds: every monitor below the
      reported count has a record, a record that was already there is kept
      (not recreated), a new one belongs to the reporting channel object, every
      monitor from the count up has none, and every other channel's records
      are untouched. A channel id out of bounds leaves the table as it was. */
  lemma ReconciledShape(t: Table, display: ChannelRef, id: nat, len: nat)
    requires WellFormed(t)
    ensures id >= ChannelIdMax ==> Reconciled(t, display, id, len) == t
    ensures id < ChannelIdMax ==> forall i :: 0 <= i < MonitorIdMax ==>
      var after := Lookup(Reconciled(t, display, id, len), id, i);
      (i < len ==> after.Some?) &&
      (i < len && Lookup(t, id, i).Some? ==> after == Lookup(t, id, i)) &&
      (i < len && Lookup(t, id, i).None? ==> after == Some(NewWindow(display, id, i))) &&
      (i >= len ==> after == None)
    ensures forall c, m :: c != id && InBounds(c, m) ==>
      Lookup(Reconciled(t, display, id, len), c, m) == Lookup(t, c, m)
  {
    var r := Reconciled(t, display, id, len);
    if id >= ChannelIdMax {
      assert r == t;
    } else {
      forall i | 0 <= i < MonitorIdMax
        ensures r[Slot(id, i)] == ReconciledSlot(t[Slot(id, i)], Slot(id, i), display, id, len)
        ensures SlotChannel(Slot(id, i)) == id && SlotMonitor(Slot(id, i)) == i
      {
        SlotPacking(id, i);
      }
    }
    forall c, m | c != id && InBounds(c, m)
      ensures Lookup(r, c, m) == Lookup(t, c, m)
    {
      SlotPacking(c, m);
    }
  }

  /** The report keeps the table invariant. */
  lemma ReconciledWellFormed(t: Table, display: ChannelRef, id: nat, len: nat)
    requires WellFormed(t)
    ensures WellFormed(Reconciled(t, display, id, len))
  {
    var r := Reconciled(t, display, id, len);
    forall k | 0 <= k < TableSize && r[k].Some?
      ensures InBounds(r[k].value.id, r[k].value.monitorId)
      ensures Slot(r[k].value.id, r[k].value.monitorId) == k
    {
      SlotUnpacking(k);
    }
  }

  /** A second report with the same count, even through another channel
      object, changes nothing: existing records are never recreated. */
  lemma ReconcileIdempotent(t: Table, display: ChannelRef, display2: ChannelRef, id: nat, len: nat)
    requires |t| == TableSize
    ensures Reconciled(Reconciled(t, display, id, len), display2, id, len) == Reconciled(t, display, id, len)
  {
  }

  /** The first loop leaves the monitors at or above the count alone, so the
      second loop issues the calls it would have issued on the table as it
      was before the report. */
  lemma {:induction false} DisableRangeAfterCreate(t: Table, display: ChannelRef, id: nat, len: nat, hi: nat)
    requires |t| == TableSize
    ensures DisableRange(CreatePass(t, display, id, len), id, len, hi) == DisableRange(t, id, len, hi)
    decreases hi
  {
    if hi > len {
      DisableRangeAfterCreate(t, display, id, len, hi - 1);
      if InBounds(id, hi - 1) {
        SlotPacking(id, hi - 1);
        CreatePassSlot(t, display, id, len, Slot(id, hi - 1));
      }
    }
  }

  /** The report issues calls only for monitors at or above the count that
      held a record: the calls are empty exactly when no such monitor exists. */
  lemma DisableRangeEmptyIff(t: Table, id: nat, lo: nat, hi: nat)
    requires WellFormed(t)
    ensures DisableRange(t, id, lo, hi) == [] <==>
      forall i :: lo <= i < hi ==> Lookup(t, id, i).None?
  {
    DisableRangeCount(t, id, lo, hi);
    if forall i :: lo <= i < hi ==> Lookup(t, id, i).None? {
      assert StaleMonitors(t, id, lo, hi) == {};
    } else {
      var i: nat :| lo <= i < hi && Lookup(t, id, i).Some?;
      assert i in StaleMonitors(t, id, lo, hi);
    }
  }

  /** In a well-formed table the record `get_window` finds is always in
      bounds, so `del_window` issues its two calls for it. */
  lemma FoundRecordCalls(t: Table, id: nat, i: nat)
    requires WellFormed(t)
    ensures RemoveCommands(Lookup(t, id, i)) ==
      if Lookup(t, id, i).Some?
      then [Enable(DisableIndex(Lookup(t, id, i).value), false, true), SendConfig]
      else []
  {
    LookupFindsPair(t, id, i);
  }

  /** Widening the range by one monitor adds that monitor when it holds a record. */
  lemma StaleMonitorsStep(t: Table, id: nat, lo: nat, hi: nat)
    requires |t| == TableSize && lo < hi
    ensures |StaleMonitors(t, id, lo, hi)| ==
      |StaleMonitors(t, id, lo, hi - 1)| + if Lookup(t, id, hi - 1).Some? then 1 else 0
  {
    var before := StaleMonitors(t, id, lo, hi - 1);
    if Lookup(t, id, hi - 1).Some? {
      assert StaleMonitors(t, id, lo, hi) == before + {hi - 1};
      assert |before + {hi - 1}| == |before| + 1;
    } else {
      assert StaleMonitors(t, id, lo, hi) == before;
    }
  }

  /** One pair of calls per stale record. */
  lemma {:induction false} DisableRangeCount(t: Table, id: nat, lo: nat, hi: nat)
    requires WellFormed(t)
    ensures |DisableRange(t, id, lo, hi)| == 2 * |StaleMonitors(t, id, lo, hi)|
  {
    if hi <= lo {
      assert StaleMonitors(t, id, lo, hi) == {};
    } else {
      DisableRangeCount(t, id, lo, hi - 1);
      FoundRecordCalls(t, id, hi - 1);
      StaleMonitorsStep(t, id, lo, hi);
    }
  }

  /** A sequence of disable-then-commit pairs: each disable has enabled false
      and the flag set. */
  predicate DisablePairs(cs: seq<Command>)
    decreases |cs|
  {
    cs == [] ||
    (|cs| >= 2 && cs[0].Enable? && !cs[0].enabled && cs[0].flag && cs[1] == SendConfig &&
     DisablePairs(cs[2..]))
  }

  lemma {:induction false} DisablePairsAppend(a: seq<Command>, b: seq<Command>)
    requires DisablePairs(a) && DisablePairs(b)
    ensures DisablePairs(a + b)
    decreases |a|
  {
    if a == [] {
      assert a + b == b;
    } else {
      assert (a + b)[2..] == a[2..] + b;
      DisablePairsAppend(a[2..], b);
    }
  }

  /** What one `del_window` issues is itself one such pair, or nothing. */
  lemma RemoveCommandsPairs(w: Option<Window>)
    ensures DisablePairs(RemoveCommands(w))
  {
    if RemoveCommands(w) != [] {
      assert RemoveCommands(w)[2..] == [];
    }
  }

  /** The calls come in pairs: a disable (enabled false, flag set) followed
      by a commit. */
  lemma {:induction false} DisableRangePairs(t: Table, id: nat, lo: nat, hi: nat)
    requires |t| == TableSize
    ensures DisablePairs(DisableRange(t, id, lo, hi))
  {
    if hi > lo {
      DisableRangePairs(t, id, lo, hi - 1);
      RemoveCommandsPairs(Lookup(t, id, hi - 1));
      DisablePairsAppend(DisableRange(t, id, lo, hi - 1), RemoveCommands(Lookup(t, id, hi - 1)));
    }
  }

  /** Every stale record's disable command is issued. */
  lemma {:induction false} DisableRangeCovers(t: Table, id: nat, lo: nat, hi: nat, i: nat)
    requires WellFormed(t)
    requires lo <= i < hi && Lookup(t, id, i).Some?
    ensures Enable(DisableIndex(Lookup(t, id, i).value), false, true) in DisableRange(t, id, lo, hi)
  {
    var w := Lookup(t, id, hi - 1);
    assert DisableRange(t, id, lo, hi) == DisableRange(t, id, lo, hi - 1) + RemoveCommands(w);
    if i < hi - 1 {
      DisableRangeCovers(t, id, lo, hi - 1, i);
    } else {
      FoundRecordCalls(t, id, i);
      assert RemoveCommands(w)[0] == Enable(DisableIndex(w.value), false, true);
    }
  }

  /** Every disable command issued belongs to a stale record. */
  lemma {:induction false} DisableRangeSound(t: Table, id: nat, lo: nat, hi: nat, c: Command)
    requires WellFormed(t)
    requires c in DisableRange(t, id, lo, hi) && c.Enable?
    ensures exists i :: (lo <= i < hi && Lookup(t, id, i).Some? &&
                         c == Enable(DisableIndex(Lookup(t, id, i).value), false, true))
  {
    var w := Lookup(t, id, hi - 1);
    assert DisableRange(t, id, lo, hi) == DisableRange(t, id, lo, hi - 1) + RemoveCommands(w);
    if c in DisableRange(t, id, lo, hi - 1) {
      DisableRangeSound(t, id, lo, hi - 1, c);
    } else {
      assert c in RemoveCommands(w);
      assert lo <= hi - 1 < hi && Lookup(t, id, hi - 1).Some?;
    }
  }

  /** Reporting the same count a second time issues no call at all. */
  lemma SecondReportSilent(t: Table, display: ChannelRef, id: nat, len: nat)
    requires WellFormed(t)
    ensures ReconcileCommands(Reconciled(t, display, id, len), id, len) == []
  {
    ReconciledShape(t, display, id, len);
    ReconciledWellFormed(t, display, id, len);
    DisableRangeEmptyIff(Reconciled(t, display, id, len), id, len, MonitorIdMax);
  }
}
