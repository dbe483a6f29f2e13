/** The calls `resize` makes: for every occupied slot, in slot order, an enable
    and a geometry command, both aimed at the display index of the record in
    slot 0; then a single commit. The table itself is only read. */
module ResizeSpec {
  import opened Wrappers
  import opened SessionApi
  import opened WindowTable

  const DefaultWidth: int := 1400
  const DefaultHeight: int := 800

  /** `resize` dereferences the record in slot 0 as soon as it meets any
      occupied slot: with slot 0 empty, the first occupied slot faults the
      process before any call for it is made. */
  predicate ResizeFaults(t: Table)
    requires |t| == TableSize
  {
    t[0].None? && exists k :: 0 <= k < TableSize && t[k].Some?
  }

  /** The display index `resize` uses: the sum of the two ids of the record in
      slot 0, whichever slot is being visited. */
  function ResizeIndex(w0: Window): int {
    w0.id + w0.monitorId
  }

  /** The enable and geometry pair issued for one occupied slot. */
  function ResizePair(w0: Window): seq<Command> {
    [Enable(ResizeIndex(w0), true, false),
     Update(ResizeIndex(w0), 0, 0, DefaultWidth, DefaultHeight, true)]
  }

  /** The calls issued while visiting slots `0..n-1` without faulting: a
      pair for each occupied slot while slot 0 holds a record. */
  function ResizeUpdates(t: Table, n: nat): seq<Command>
    requires |t| == TableSize && n <= TableSize
  {
    if n == 0 then []
    else ResizeUpdates(t, n - 1) + (if t[n - 1].Some? && t[0].Some? then ResizePair(t[0].value) else [])
  }

  /** The calls issued by one `resize` that does not fault. */
  function ResizeCommands(t: Table): seq<Command>
    requires |t| == TableSize
  {
    ResizeUpdates(t, TableSize) + [SendConfig]
  }

  /** The occupied slots among `0..n-1`. */
  function OccupiedBelow(t: Table, n: nat): set<nat>
    requires n <= |t|
  {
    set k: nat | k < n && t[k].Some?
  }

  /** `count` copies of the call sequence `p`, back to back. */
  function Repeat(p: seq<Command>, count: nat): (r: seq<Command>)
    ensures |r| == count * |p|
  {
    if count == 0 then [] else Repeat(p, count - 1) + p
  }

  /** A call absent from `p` is absent from any repetition of it. */
  lemma {:induction false} RepeatAvoids(p: seq<Command>, count: nat, c: Command)
    requires c !in p
    ensures c !in Repeat(p, count)
  {
    if count > 0 {
      RepeatAvoids(p, count - 1, c);
    }
  }

  /** Every call in a repetition of `p` is a call of `p`. */
  lemma {:induction false} RepeatOnly(p: seq<Command>, count: nat, c: Command)
    requires c in Repeat(p, count)
    ensures c in p
  {
    if c !in p {
      RepeatOnly(p, count - 1, c);
    }
  }

  /** Extending the range by one slot adds that slot when it is occupied. */
  lemma OccupiedStep(t: Table, n: nat)
    requires 0 < n <= |t|
    ensures |OccupiedBelow(t, n)| ==
      |OccupiedBelow(t, n - 1)| + if t[n - 1].Some? then 1 else 0
  {
    var before := OccupiedBelow(t, n - 1);
    if t[n - 1].Some? {
      assert OccupiedBelow(t, n) == before + {n - 1};
      assert |before + {n - 1}| == |before| + 1;
    } else {
      assert OccupiedBelow(t, n) == before;
    }
  }

  /** The calls before the commit are slot 0's enable-and-geometry pair,
      repeated once per occupied slot: which slot is visited never matters. */
  lemma {:induction false} ResizeUpdatesRepeat(t: Table, n: nat)
    requires |t| == TableSize && n <= TableSize
    ensures ResizeUpdates(t, n) ==
      if t[0].Some? then Repeat(ResizePair(t[0].value), |OccupiedBelow(t, n)|) else []
  {
    if n > 0 {
      ResizeUpdatesRepeat(t, n - 1);
      OccupiedStep(t, n);
    }
  }

  /** One `resize` emits two calls per occupied slot and ends with exactly one
      commit, which appears nowhere else. */
  lemma ResizeCommandsShape(t: Table)
    requires |t| == TableSize && !ResizeFaults(t)
    ensures |ResizeCommands(t)| == 2 * |OccupiedBelow(t, TableSize)| + 1
    ensures ResizeCommands(t)[|ResizeCommands(t)| - 1] == SendConfig
    ensures forall j :: 0 <= j < |ResizeCommands(t)| - 1 ==> ResizeCommands(t)[j] != SendConfig
  {
    var u := ResizeUpdates(t, TableSize);
    ResizeUpdatesRepeat(t, TableSize);
    if t[0].Some? {
      RepeatAvoids(ResizePair(t[0].value), |OccupiedBelow(t, TableSize)|, SendConfig);
    } else {
      assert OccupiedBelow(t, TableSize) == {};
    }
    assert ResizeCommands(t) == u + [SendConfig];
  }

  /** On an empty table `resize` only commits. */
  lemma ResizeEmptyTable(t: Table)
    requires |t| == TableSize && forall k :: 0 <= k < TableSize ==> t[k].None?
    ensures !ResizeFaults(t) && ResizeCommands(t) == [SendConfig]
  {
    ResizeUpdatesRepeat(t, TableSize);
  }

  /** Empty slots add no call. */
  lemma {:induction false} ResizeUpdatesSkip(t: Table, lo: nat, hi: nat)
    requires |t| == TableSize && lo <= hi <= TableSize
    requires forall k :: lo <= k < hi ==> t[k].None?
    ensures ResizeUpdates(t, hi) == ResizeUpdates(t, lo)
  {
    if hi > lo {
      ResizeUpdatesSkip(t, lo, hi - 1);
    }
  }

  /** With records for monitor 0 of channel 0 and monitor 1 of channel 1, the
      second monitor is never addressed: both pairs target display index 0. */
  lemma ResizeRepeatsSlotZero(d: ChannelRef)
    ensures var t := EmptyTable()[0 := Some(NewWindow(d, 0, 0))][5 := Some(NewWindow(d, 1, 1))];
      !ResizeFaults(t) &&
      ResizeCommands(t) == ResizePair(NewWindow(d, 0, 0)) + ResizePair(NewWindow(d, 0, 0)) + [SendConfig] &&
      ResizePair(NewWindow(d, 0, 0))[0] == Enable(0, true, false)
  {
    var t := EmptyTable()[0 := Some(NewWindow(d, 0, 0))][5 := Some(NewWindow(d, 1, 1))];
    var p := ResizePair(NewWindow(d, 0, 0));
    assert ResizeUpdates(t, 1) == p;
    ResizeUpdatesSkip(t, 1, 5);
    assert ResizeUpdates(t, 6) == p + p;
    ResizeUpdatesSkip(t, 6, 16);
  }

  /** A table whose only record is monitor 2 of channel 1 makes `resize`
      fault: slot 0 is read although it is empty. */
  lemma ResizeFaultsWithoutSlotZero(d: ChannelRef)
    ensures ResizeFaults(EmptyTable()[6 := Some(NewWindow(d, 1, 2))])
  {
    var t := EmptyTable()[6 := Some(NewWindow(d, 1, 2))];
    assert t[6].Some?;
  }

  /** On a well-formed table slot 0 can only hold monitor 0 of channel 0, so
      every call `resize` makes is the enable or the geometry call for display
      index 0, or the commit, whichever displays are known. */
  lemma ResizeTargetsIndexZero(t: Table)
    requires WellFormed(t)
    ensures t[0].Some? ==> ResizeIndex(t[0].value) == 0
    ensures forall c :: c in ResizeCommands(t) ==>
      c == Enable(0, true, false) || c == Update(0, 0, 0, DefaultWidth, DefaultHeight, true) || c == SendConfig
  {
    ResizeUpdatesRepeat(t, TableSize);
    forall c | c in ResizeCommands(t)
      ensures c == Enable(0, true, false) || c == Update(0, 0, 0, DefaultWidth, DefaultHeight, true) || c == SendConfig
    {
      assert ResizeCommands(t) == ResizeUpdates(t, TableSize) + [SendConfig];
      if c in ResizeUpdates(t, TableSize) {
        RepeatOnly(ResizePair(t[0].value), |OccupiedBelow(t, TableSize)|, c);
      }
    }
  }
}
