/** The per-connection window table: a fixed array of optional window records,
    one slot per (display channel id, monitor id) pair, packed as
    `channelId * ChannelIdMax + monitorId`. This module holds the value-level
    specification of the table operations; the class in module Client performs
    them in place on an array. */
module WindowTable {
  import opened Wrappers
  import opened SessionApi

  const ChannelIdMax: nat := 4
  const MonitorIdMax: nat := 4
  const TableSize: nat := ChannelIdMax * MonitorIdMax

  /** One window record: which monitor of which display channel it tracks,
      and the display channel it belongs to. */
  datatype Window = Window(id: nat, monitorId: nat, display: ChannelRef,
                           fullscreen: bool, mouseGrabbed: bool)

  /** A freshly constructed record: the object allocator zeroes every flag. */
  function NewWindow(display: ChannelRef, id: nat, monitorId: nat): Window {
    Window(id, monitorId, display, false, false)
  }

  type Table = seq<Option<Window>>

  function EmptyTable(): (t: Table)
    ensures |t| == TableSize && forall k :: 0 <= k < |t| ==> t[k].None?
  {
    seq(TableSize, _ => None)
  }

  /** The slot of a (channel, monitor) pair. The source multiplies by the
      channel bound; both bounds are 4, so the packing is dense. */
  function Slot(channelId: nat, monitorId: nat): nat {
    channelId * ChannelIdMax + monitorId
  }

  /** The pair a slot stands for. */
  function SlotChannel(k: nat): nat { k / ChannelIdMax }
  function SlotMonitor(k: nat): nat { k % ChannelIdMax }

  predicate InBounds(channelId: nat, monitorId: nat) {
    channelId < ChannelIdMax && monitorId < MonitorIdMax
  }

  /** Packing maps every in-bounds pair into the table and can be undone. */
  lemma SlotPacking(channelId: nat, monitorId: nat)
    requires InBounds(channelId, monitorId)
    ensures Slot(channelId, monitorId) < TableSize
    ensures SlotChannel(Slot(channelId, monitorId)) == channelId
    ensures SlotMonitor(Slot(channelId, monitorId)) == monitorId
  {
  }

  /** Every slot stands for exactly one in-bounds pair. */
  lemma SlotUnpacking(k: nat)
    requires k < TableSize
    ensures InBounds(SlotChannel(k), SlotMonitor(k))
    ensures Slot(SlotChannel(k), SlotMonitor(k)) == k
  {
  }

  /** Distinct in-bounds pairs never share a slot. */
  lemma SlotInjective(c1: nat, m1: nat, c2: nat, m2: nat)
    requires InBounds(c1, m1) && InBounds(c2, m2)
    requires Slot(c1, m1) == Slot(c2, m2)
    ensures c1 == c2 && m1 == m2
  {
    SlotPacking(c1, m1);
    SlotPacking(c2, m2);
  }

  /** The table invariant: every occupied slot holds a record whose ids are in
      bounds and pack to that very slot, so there is at most one record per pair. */
  ghost predicate WellFormed(t: Table) {
    |t| == TableSize &&
    forall k :: 0 <= k < |t| && t[k].Some? ==>
      InBounds(t[k].value.id, t[k].value.monitorId) &&
      Slot(t[k].value.id, t[k].value.monitorId) == k
  }

  /** `get_window`: the record in the pair's slot; out-of-bounds ids give no
      record and read nothing. */
  function Lookup(t: Table, channelId: nat, monitorId: nat): (r: Option<Window>)
    requires |t| == TableSize
    ensures !InBounds(channelId, monitorId) ==> r == None
  {
    if !InBounds(channelId, monitorId) then None
    else t[Slot(channelId, monitorId)]
  }

  /** In a well-formed table, `get_window` returns a record for exactly the
      pair that was asked for. */
  lemma LookupFindsPair(t: Table, channelId: nat, monitorId: nat)
    requires WellFormed(t)
    ensures var r := Lookup(t, channelId, monitorId);
      r.Some? ==> r.value.id == channelId && r.value.monitorId == monitorId
  {
    if InBounds(channelId, monitorId) {
      SlotPacking(channelId, monitorId);
    }
  }

  /** `add_window`: a record is stored in its packed slot when it is present,
      its ids are in bounds and the slot is empty; otherwise nothing changes.
      No other slot ever changes. */
  function Inserted(t: Table, w: Option<Window>): (r: Table)
    requires |t| == TableSize
    ensures |r| == TableSize
  {
    match w
    case None => t
    case Some(rec) =>
      if InBounds(rec.id, rec.monitorId) && t[Slot(rec.id, rec.monitorId)].None?
      then t[Slot(rec.id, rec.monitorId) := w]
      else t
  }

  /** Adding changes at most the record's own slot, only when it was empty,
      and keeps the table invariant. */
  lemma InsertedFrame(t: Table, w: Option<Window>)
    requires |t| == TableSize
    ensures forall k :: 0 <= k < TableSize && Inserted(t, w)[k] != t[k] ==>
      w.Some? && k == Slot(w.value.id, w.value.monitorId) && t[k] == None && Inserted(t, w)[k] == w
    ensures WellFormed(t) ==> WellFormed(Inserted(t, w))
  {
  }

  /** Adding a record to its empty slot makes `get_window` return it. */
  lemma InsertThenLookup(t: Table, rec: Window)
    requires |t| == TableSize
    requires InBounds(rec.id, rec.monitorId)
    requires Lookup(t, rec.id, rec.monitorId) == None
    ensures Lookup(Inserted(t, Some(rec)), rec.id, rec.monitorId) == Some(rec)
  {
  }

  /** Adding to an occupied slot, or with an out-of-bounds id, is refused and
      leaves the whole table as it was. */
  lemma InsertRefused(t: Table, rec: Window)
    requires |t| == TableSize
    requires !InBounds(rec.id, rec.monitorId) || Lookup(t, rec.id, rec.monitorId).Some?
    ensures Inserted(t, Some(rec)) == t
  {
  }

  /** The display index `del_window` disables: the channel id when it is
      positive, otherwise the monitor id. */
  function DisableIndex(rec: Window): nat {
    if rec.id > 0 then rec.id else rec.monitorId
  }

  /** Because of that choice, monitor 0 of channel 1 and monitor 1 of channel 0
      are disabled through the same display index, and so are all monitors of
      channel 1. */
  lemma DisableIndexCollides(d1: ChannelRef, d2: ChannelRef)
    ensures DisableIndex(NewWindow(d1, 1, 0)) == DisableIndex(NewWindow(d2, 0, 1)) == 1
    ensures forall m :: DisableIndex(NewWindow(d1, 1, m)) == 1
  {
  }

  /** `del_window`, table part: NULL is a no-op; a record with in-bounds ids
      empties its packed slot (whatever that slot held) and nothing else. */
  function Removed(t: Table, w: Option<Window>): (r: Table)
    requires |t| == TableSize
    ensures |r| == TableSize
  {
    match w
    case None => t
    case Some(rec) =>
      if InBounds(rec.id, rec.monitorId) then t[Slot(rec.id, rec.monitorId) := None] else t
  }

  /** Removing changes at most the record's own slot, which it empties, and
      keeps the table invariant; removing NULL changes nothing. */
  lemma RemovedFrame(t: Table, w: Option<Window>)
    requires |t| == TableSize
    ensures forall k :: 0 <= k < TableSize && Removed(t, w)[k] != t[k] ==>
      w.Some? && k == Slot(w.value.id, w.value.monitorId) && Removed(t, w)[k] == None
    ensures w.None? ==> Removed(t, w) == t
    ensures WellFormed(t) ==> WellFormed(Removed(t, w))
  {
  }

  /** `del_window`, call part: for a record with in-bounds ids, one disable
      command for its display index followed by one commit; nothing otherwise. */
  function RemoveCommands(w: Option<Window>): seq<Command> {
    match w
    case None => []
    case Some(rec) =>
      if InBounds(rec.id, rec.monitorId) then [Enable(DisableIndex(rec), false, true), SendConfig]
      else []
  }

  /** `del_window` calls the library exactly when the record is present with
      in-bounds ids, and then disables before it commits. */
  lemma RemoveCommandsShape(w: Option<Window>)
    ensures RemoveCommands(w) == [] <==> w.None? || !InBounds(w.value.id, w.value.monitorId)
    ensures RemoveCommands(w) != [] ==>
      |RemoveCommands(w)| == 2 &&
      RemoveCommands(w)[0] == Enable(DisableIndex(w.value), false, true) &&
      RemoveCommands(w)[1] == SendConfig
  {
  }

  /** After removal `get_window` finds nothing for the record's pair, and a
      second removal leaves the table as the first one did. */
  lemma RemoveThenLookup(t: Table, rec: Window)
    requires |t| == TableSize
    ensures Lookup(Removed(t, Some(rec)), rec.id, rec.monitorId) == None
    ensures Removed(Removed(t, Some(rec)), Some(rec)) == Removed(t, Some(rec))
  {
  }
}
