# Window table and resize logic of the spice-gtk resize client

This project models the logic of `resize/resize.c`, a small remote-display
(SPICE) client built on the spice-gtk library. The client keeps one
connection object (`spice_connection`). It holds:

- a fixed table of window records, one slot per (display channel id, monitor id)
  pair, packed as `channel_id * 4 + monitor_id` into 16 slots;
- the main channel;
- the audio object;
- mouse-mode and agent labels.

The library calls back into the client for these events:

- **A channel is announced.** `channel_new` handles it.
- **A display channel reports its monitor list.** `display_monitors` reconciles
  the table with that list. It creates the missing records, then deletes every
  record at or above the reported count. Each deletion disables a display
  index, chosen as described below, and commits the monitor configuration.
- **A main-channel event.** `main_channel_event` disconnects the session on a
  close or an I/O error.
- **A mouse-mode or agent update.** `main_mouse_update` and `main_agent_update`
  refresh the labels.

A two-second timer runs `resize`. Once per occupied slot, it sends an enable
call and a 1400x800 geometry call for the display index of slot 0's record.
It then commits. It returns false, so the timer fires once.

The model is organised as follows:

- **`Wrappers`, `SessionApi`** (`session_api.dfy`): library handles, channel
  kinds, events and mouse modes. Every library call the client makes is
  recorded as a `Command`: `Enable`, `Update`, `SendConfig`, `Disconnect` or
  `Connect`.
- **`WindowTable`** (`window_table.dfy`): the table as a value, with
  `get_window`, `add_window` and the two halves of `del_window` (what it does
  to the table and what it calls), the table invariant and their lemmas.
- **`Reconcile`** (`reconcile.dfy`): `display_monitors`. It defines its two
  loops as recursive functions (`CreatePass`, `DeletePass`) and a slot-by-slot
  description of the result (`Reconciled`). It proves that the loops produce
  that result and describes exactly which calls they issue.
- **`ResizeSpec`** (`resize_spec.dfy`): the calls `resize` issues and when it
  faults.
- **`Router`** (`router.dfy`): the label and event functions and the
  connect decision of `channel_new`.
- **`Client`** (`client.dfy`): the class `Connection`, whose fields are those
  of `spice_connection`. The window table is an `array` updated in place. The
  library calls made so far are kept in an append-only `trace`. Each callback
  is a method whose contract gives the new state and the calls it appended in
  terms of the functions above.

The model keeps the behaviour of the code as written:

- `del_window` disables display index `id` when the channel id is positive and
  `monitor_id` otherwise.
- `resize` aims every enable and geometry call at the index of the record in
  slot 0, once per occupied slot.
- `channel_new` decides whether to connect a display channel by reading slot
  `wins[id]`, with the raw channel id as the slot index.

Where a natural reading of the code differs from what it does, the model
follows what it does:

- **Resize calls per slot.** `resize` does not resize each known display, nor
  only the first occupied slot. It issues one enable-and-geometry pair per
  occupied slot, all for the same index (`ResizeSpec.ResizeUpdatesRepeat`).
  On a well-formed table that index is always 0
  (`ResizeSpec.ResizeTargetsIndexZero`).
- **Where resize faults.** An empty table does not make `resize` dereference an
  absent record: it only commits
  (`ResizeSpec.ResizeEmptyTable`). It faults when slot 0 is empty while
  another slot is occupied, as with a single record for monitor 2 of channel 1
  (`ResizeSpec.ResizeFaultsWithoutSlotZero`).
- **Invalid table access.** Invalid table accesses do not fail loudly. The
  `g_return_if_fail` guards return without effect on the state, and that is
  what the model does.

## Model

| member | source | states |
|---|---|---|
| WindowTable.SlotPacking | resize/resize.c:119-125 | every in-bounds (channel, monitor) pair is packed into one of the 16 slots and both ids can be recovered from the slot |
| WindowTable.SlotUnpacking | resize/resize.c:44-47 | every one of the 16 slots belongs to exactly one in-bounds pair |
| WindowTable.SlotInjective | resize/resize.c:119-125 | two different in-bounds pairs never share a slot |
| WindowTable.Lookup | resize/resize.c:119-125 | `get_window` with a channel or monitor id out of bounds returns no record |
| WindowTable.LookupFindsPair | resize/resize.c:119-125 | in a well-formed table, a record returned by `get_window` carries exactly the requested channel and monitor ids |
| WindowTable.InsertedFrame | resize/resize.c:128-137 | `add_window` changes at most the record's own slot, only when that slot was empty, and only by storing the record; it keeps the table well formed |
| WindowTable.InsertThenLookup | resize/resize.c:128-137 | after adding an in-bounds record to its empty slot, `get_window` returns that record |
| WindowTable.InsertRefused | resize/resize.c:130-133 | adding a record with an out-of-bounds id, or into an occupied slot, leaves the whole table unchanged |
| WindowTable.DisableIndexCollides | resize/resize.c:110-113 | monitor 0 of channel 1 and monitor 1 of channel 0 are disabled through the same display index 1, and so is every monitor of channel 1 |
| WindowTable.RemovedFrame | resize/resize.c:100-109 | `del_window` changes at most the record's own slot, which it empties; NULL changes nothing; the table stays well formed |
| WindowTable.RemoveCommandsShape | resize/resize.c:100-114 | `del_window` calls the library exactly when the record is present with in-bounds ids, and then issues one disable (enabled false, flag true) followed by one commit |
| WindowTable.RemoveThenLookup | resize/resize.c:100-125 | after `del_window` of a record, `get_window` finds nothing for its pair; deleting it again changes nothing more |
| Reconcile.CreatePassSlot | resize/resize.c:152-161 | after the first loop has visited monitors 0..n-1, exactly the previously empty slots of those monitors of channel `id` (in bounds) hold new records for this display channel; every other slot is unchanged |
| Reconcile.CreatePassWellFormed | resize/resize.c:152-161 | the first loop keeps the table well formed |
| Reconcile.DeletePassSlot | resize/resize.c:163-164 | after the second loop has visited monitors lo..hi-1, exactly the slots of those monitors of channel `id` are empty and every other slot is unchanged |
| Reconcile.DeletePassUntouched | resize/resize.c:163-164 | the monitor the second loop is about to visit still holds the record it held when the loop started |
| Reconcile.PassesReconcile | resize/resize.c:152-164 | the two loops together turn the table into the reconciled table |
| Reconcile.DisableRangeAfterCreate | resize/resize.c:152-164 | the first loop does not change which calls the second loop issues |
| Reconcile.ReconciledShape | resize/resize.c:73-164 | after a report of `len` monitors for channel `id` < 4, monitors below `len` of that channel all hold a record: the old one when present, otherwise the record `create_spice_window` makes, carrying the channel id, the monitor id and the reporting display object with both flags cleared; monitors at or above `len` hold none; other channels are untouched; a channel id of 4 or more leaves the table unchanged |
| Reconcile.ReconciledWellFormed | resize/resize.c:152-164 | a report keeps the table well formed |
| Reconcile.ReconcileIdempotent | resize/resize.c:152-164 | repeating a report with the same count, even through another display object, leaves the table as the first report did |
| Reconcile.SecondReportSilent | resize/resize.c:152-164 | repeating a report with the same count issues no library call |
| Reconcile.FoundRecordCalls | resize/resize.c:100-124 | `del_window(get_window(id, i))` on a well-formed table issues a disable and a commit exactly when monitor `i` of channel `id` has a record |
| Reconcile.DisableRangeEmptyIff | resize/resize.c:163-164 | a report issues no call exactly when no monitor from the count up to the bound has a record |
| Reconcile.DisableRangeCount | resize/resize.c:163-164 | a report issues exactly two calls per record it deletes |
| Reconcile.RemoveCommandsPairs | resize/resize.c:110-114 | what one `del_window` issues is one disable-then-commit pair, or nothing |
| Reconcile.DisableRangePairs | resize/resize.c:163-164 | the calls of a report are a sequence of pairs, each a disable (enabled false, flag true) followed by a commit |
| Reconcile.DisableRangeCovers | resize/resize.c:163-164 | for every deleted record the disable call for its display index is issued |
| Reconcile.DisableRangeSound | resize/resize.c:163-164 | every disable call a report issues is for the display index of a record it deleted |
| ResizeSpec.ResizeUpdatesRepeat | resize/resize.c:347-363 | the calls `resize` makes before the commit are slot 0's enable-and-geometry pair repeated once per occupied slot, or nothing when slot 0 is empty |
| ResizeSpec.ResizeCommandsShape | resize/resize.c:347-366 | unless it faults, `resize` issues two calls per occupied slot and then a single commit, which appears nowhere earlier |
| ResizeSpec.ResizeEmptyTable | resize/resize.c:347-366 | on an empty table `resize` does not fault and only commits |
| ResizeSpec.ResizeUpdatesSkip | resize/resize.c:350-351 | empty slots add no call |
| ResizeSpec.ResizeRepeatsSlotZero | resize/resize.c:355-362 | with records for monitor 0 of channel 0 and monitor 1 of channel 1, both pairs enable display index 0 and index 2 is never addressed |
| ResizeSpec.ResizeTargetsIndexZero | resize/resize.c:355-362 | on any well-formed table, slot 0's record yields display index 0, and every call `resize` makes is the enable or the geometry call for index 0, or the commit |
| ResizeSpec.ResizeFaultsWithoutSlotZero | resize/resize.c:350-356 | a table holding only monitor 2 of channel 1 makes `resize` read the empty slot 0 |
| Router.MouseLabel | resize/resize.c:215-233 | the mouse label is "server" exactly for server mode, "client" exactly for client mode, "?" exactly for any other value |
| Router.AgentLabel | resize/resize.c:235-243 | the agent label is "yes" exactly when an agent is connected and "no" exactly when none is |
| Router.EventCommands | resize/resize.c:178-212 | a main-channel event disconnects the session exactly when it is a close or an I/O error; every other event, unknown codes included, makes no call |
| Router.ConnectsOnAnnounce | resize/resize.c:254-301 | only display and port channels are ever connected on announcement, and a port channel always is |
| Router.DisplayGuardSlot | resize/resize.c:269-277 | a display channel is connected exactly when its id is below 16 and monitor `id % 4` of channel `id / 4` has no record |
| Router.DisplayGuardQuirk | resize/resize.c:269-277 | display channel 1 is refused when only monitor 1 of channel 0 has a record, and connected while all four monitors of channel 1 have records |
| Client.Connection.constructor | resize/resize.c:306-338 | a new connection has an empty 16-slot table, no main channel, no audio, unset labels, no agent, and has made no call |
| Client.Connection.GetWindow | resize/resize.c:119-125 | returns the record of the pair's slot, or none when an id is out of bounds |
| Client.Connection.AddWindow | resize/resize.c:128-137 | the array afterwards is the table with the record added as `add_window` does; the table stays well formed |
| Client.Connection.DelWindow | resize/resize.c:100-117 | the array afterwards is the table with the record removed, and the trace grows by exactly the calls `del_window` makes |
| Client.Connection.DisplayMonitors | resize/resize.c:139-167 | a missing monitor list changes nothing; otherwise the array becomes the reconciled table and the trace grows by exactly the calls the report issues |
| Client.Connection.CreateMonitors | resize/resize.c:152-161 | the array afterwards is the first loop's result |
| Client.Connection.DeleteMonitors | resize/resize.c:163-164 | the array afterwards is the second loop's result and the trace grows by its disable-and-commit calls |
| Client.Connection.Resize | resize/resize.c:340-369 | stops the timer; faults exactly when slot 0 is empty while another slot is occupied, and then makes no call; otherwise appends exactly the calls of one resize |
| Client.Connection.MainChannelEvent | resize/resize.c:170-213 | the trace grows by the disconnect call exactly for a close or an I/O error |
| Client.Connection.MainMouseUpdate | resize/resize.c:215-233 | the mouse label becomes the label of the channel's mouse mode |
| Client.Connection.MainAgentUpdate | resize/resize.c:235-243 | the agent flag becomes the channel's value and the agent label follows it |
| Client.Connection.ChannelNew | resize/resize.c:245-302 | a main channel is stored and refreshes both labels and the agent flag; a playback channel stores the session's audio object; a connect call is appended exactly when the channel is a port channel, or a display channel whose raw slot is empty; nothing else changes |

## Left out

- The GObject type boilerplate and `destroy_spice_window` are not modelled. Records are values, and releasing them is memory management. For the same reason the model does not show that a record which `add_window` refuses is leaked.
- `main` is not modelled: the host and port constants, connecting the session, the main loop and the registration of the two-second timer. `Client.Connection.Resize` is the timer callback invoked directly.
- Signal subscriptions (`g_signal_connect`) in `connection_new` and `channel_new` are not modelled. The callbacks are methods called directly.
- `g_object_get` property reads become parameters:
  - the channel's id and kind;
  - the mouse mode;
  - the agent flag;
  - the monitor list, reduced to its length, or none when the list is NULL.
- `spice_audio_get` becomes the `sessionAudio` parameter of `Client.Connection.ChannelNew`.
- Logging (`g_message`, `g_warning`, `SPICE_DEBUG`) is not modelled. The diagnostic that a failed `g_return_if_fail` prints is not modelled either; only the early return is.
- The authentication-failure branch of `main_channel_event` has no modelled effect. Its `strcpy` only clears a local buffer.
- Reading the error object on TLS, link and connect failures has no modelled effect.
- The `session` handle, the `disconnecting` field and the `transfers` table of `spice_connection` are not modelled. Apart from the disconnect call, only `main` uses them after creation, and `main` is left out.
- The `connections` counter is not modelled. Nothing reads it.
- The `conn` back-pointer and the `enable_accels_save`/`enable_mnemonics_save` fields of a record are not modelled, and neither are the Windows-only position fields.
- The commands do not record which main-channel object they are sent to. The source sends them to `conn->main` even before any main channel is announced.
- Channel events and mouse modes are symbolic. The library's numeric codes are not part of this model. Every code outside the named ones is `Unknown`/`OtherMode`.
- WindowTable.Lookup: ids are natural numbers. The source's ids are signed `int`, and a negative id passes its upper-bound checks and indexes outside the array. That case is not modelled.
- Client.Connection.Resize: the fault is an outcome flag with an unchanged trace. Everything the process does after the NULL dereference is not modelled.
