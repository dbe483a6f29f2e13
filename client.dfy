/** The connection object of the resize client and the callbacks that update
    it in place. Every call into the remote-display library is appended to
    `trace`, so each method states both the new state and the calls it made. */
module Client {
  import opened Wrappers
  import opened SessionApi
  import opened WindowTable
  import opened Reconcile
  import opened ResizeSpec
  import opened Router

  class Connection {
    /** The window table, one optional record per packed slot. */
    var wins: array<Option<Window>>
    /** The main control channel, once announced. */
    var main: Option<ChannelRef>
    /** The audio object, once a playback channel was announced. */
    var audio: Option<AudioRef>
    /** The mouse-mode and agent labels; unset until first updated. */
    var mouseState: Option<string>
    var agentState: Option<string>
    var agentConnected: bool
    /** The calls made into the library so far, oldest first. */
    var trace: seq<Command>

    ghost predicate Valid()
      reads this, wins
    {
      wins.Length == TableSize && WellFormed(wins[..])
    }

    /** `connection_new`: a zeroed connection with an empty table. */
    constructor ()
      ensures Valid() && fresh(wins)
      ensures wins[..] == EmptyTable()
      ensures main == None && audio == None
      ensures mouseState == None && agentState == None && !agentConnected
      ensures trace == []
    {
      wins := new Option<Window>[TableSize](_ => None);
      main, audio := None, None;
      mouseState, agentState, agentConnected := None, None, false;
      trace := [];
    }

    /** `get_window`: reads only the packed slot, and only when both ids are
        in bounds. */
    method GetWindow(channelId: nat, monitorId: nat) returns (w: Option<Window>)
      requires Valid()
      ensures w == Lookup(wins[..], channelId, monitorId)
    {
      if channelId >= ChannelIdMax || monitorId >= MonitorIdMax {
        return None;
      }
      w := wins[channelId * ChannelIdMax + monitorId];
    }

    /** `add_window`. */
    method AddWindow(w: Option<Window>)
      requires Valid()
      modifies wins
      ensures Valid()
      ensures wins[..] == Inserted(old(wins[..]), w)
    {
      InsertedFrame(wins[..], w);
      if w.None? || w.value.id >= ChannelIdMax || w.value.monitorId >= MonitorIdMax {
        return;
      }
      var k := w.value.id * ChannelIdMax + w.value.monitorId;
      if wins[k].Some? {
        return;
      }
      wins[k] := w;
    }

    /** `del_window`. */
    method DelWindow(w: Option<Window>)
      requires Valid()
      modifies wins, this`trace
      ensures Valid()
      ensures wins[..] == Removed(old(wins[..]), w)
      ensures trace == old(trace) + RemoveCommands(w)
    {
      RemovedFrame(wins[..], w);
      if w.None? {
        return;
      }
      var rec := w.value;
      if rec.id >= ChannelIdMax || rec.monitorId >= MonitorIdMax {
        return;
      }
      wins[rec.id * ChannelIdMax + rec.monitorId] := None;
      if rec.id > 0 {
        trace := trace + [Enable(rec.id, false, true)];
      } else {
        trace := trace + [Enable(rec.monitorId, false, true)];
      }
      trace := trace + [SendConfig];
    }

    /** `display_monitors`: channel `display` (with "channel-id" `id`)
        reported its monitor list, or failed to (`monitorCount` is None). */
    method DisplayMonitors(display: ChannelRef, id: nat, monitorCount: Option<nat>)
      requires Valid()
      modifies wins, this`trace
      ensures Valid()
      ensures monitorCount.None? ==> wins[..] == old(wins[..]) && trace == old(trace)
      ensures monitorCount.Some? ==>
        wins[..] == Reconciled(old(wins[..]), display, id, monitorCount.value) &&
        trace == old(trace) + ReconcileCommands(old(wins[..]), id, monitorCount.value)
    {
      if monitorCount.None? {
        return;
      }
      var len := monitorCount.value;
      ghost var t0 := wins[..];
      CreateMonitors(display, id, len);
      DeleteMonitors(id, len);
      PassesReconcile(t0, display, id, len);
      DisableRangeAfterCreate(t0, display, id, len, MonitorIdMax);
    }

    /** The first loop of `display_monitors`: a record is created and added
        for every monitor below the count that has none. */
    method CreateMonitors(display: ChannelRef, id: nat, len: nat)
      requires Valid()
      modifies wins
      ensures Valid()
      ensures wins[..] == CreatePass(old(wins[..]), display, id, len)
    {
      ghost var t0 := wins[..];
      var i: nat := 0;
      while i < len
        invariant i <= len
        invariant Valid()
        invariant wins[..] == CreatePass(t0, display, id, i)
      {
        var w := GetWindow(id, i);
        if w.None? {
          AddWindow(Some(NewWindow(display, id, i)));
        }
        i := i + 1;
      }
    }

    /** The second loop of `display_monitors`: whatever record each monitor
        from the count up to the bound holds is deleted. */
    method DeleteMonitors(id: nat, len: nat)
      requires Valid()
      modifies wins, this`trace
      ensures Valid()
      ensures wins[..] == DeletePass(old(wins[..]), id, len, MonitorIdMax)
      ensures trace == old(trace) + DisableRange(old(wins[..]), id, len, MonitorIdMax)
    {
      ghost var t1 := wins[..];
      var i: nat := len;
      while i < MonitorIdMax
        invariant len <= i && (if len <= MonitorIdMax then i <= MonitorIdMax else i == len)
        invariant Valid()
        invariant wins[..] == DeletePass(t1, id, len, i)
        invariant trace == old(trace) + DisableRange(t1, id, len, i)
      {
        DeletePassUntouched(t1, id, len, i);
        var w := GetWindow(id, i);
        ghost var done := DisableRange(t1, id, len, i);
        assert DisableRange(t1, id, len, i + 1) == done + RemoveCommands(w);
        DelWindow(w);
        assert trace == old(trace) + (done + RemoveCommands(w));
        i := i + 1;
      }
      assert DisableRange(t1, id, len, i) == DisableRange(t1, id, len, MonitorIdMax);
    }

    /** `resize`, run by the two-second timer: for every occupied slot an
        enable and a geometry call for the display of slot 0's record, then one
        commit; returns false, which stops the timer. When slot 0 is empty but
        another slot is not, the read of slot 0 faults (`faulted`) before any
        call is made. */
    method Resize() returns (again: bool, faulted: bool)
      requires Valid()
      modifies this`trace
      ensures !again
      ensures faulted <==> ResizeFaults(wins[..])
      ensures faulted ==> trace == old(trace)
      ensures !faulted ==> trace == old(trace) + ResizeCommands(wins[..])
    {
      var i := 0;
      while i < wins.Length
        invariant 0 <= i <= TableSize
        invariant wins[0].None? ==> forall k :: 0 <= k < i ==> wins[k].None?
        invariant trace == old(trace) + ResizeUpdates(wins[..], i)
      {
        if wins[i].Some? {
          if wins[0].None? {
            ResizeUpdatesSkip(wins[..], 0, i);
            return false, true;
          }
          var w0 := wins[0].value;
          trace := trace + [Enable(w0.id + w0.monitorId, true, false)];
          trace := trace + [Update(w0.id + w0.monitorId, 0, 0, DefaultWidth, DefaultHeight, true)];
        }
        i := i + 1;
      }
      trace := trace + [SendConfig];
      return false, false;
    }

    /** `main_channel_event`. */
    method MainChannelEvent(event: ChannelEvent)
      modifies this`trace
      ensures trace == old(trace) + EventCommands(event)
    {
      match event {
        case Closed =>
          trace := trace + [Disconnect];
        case ErrorIo =>
          trace := trace + [Disconnect];
        case _ =>
      }
    }

    /** `main_mouse_update`, given the channel's "mouse-mode" property. */
    method MainMouseUpdate(mode: MouseMode)
      modifies this`mouseState
      ensures mouseState == Some(MouseLabel(mode))
    {
      match mode {
        case ServerMode => mouseState := Some("server");
        case ClientMode => mouseState := Some("client");
        case OtherMode(_) => mouseState := Some("?");
      }
    }

    /** `main_agent_update`, given the channel's "agent-connected" property. */
    method MainAgentUpdate(connected: bool)
      modifies this`agentConnected, this`agentState
      ensures agentConnected == connected
      ensures agentState == Some(AgentLabel(connected))
    {
      agentConnected := connected;
      agentState := if agentConnected then Some("yes") else Some("no");
    }

    /** `channel_new`: `sessionAudio` is what the session hands out when asked
        for its audio object. */
    method ChannelNew(ch: Channel, sessionAudio: Option<AudioRef>)
      requires Valid()
      modifies this`main, this`mouseState, this`agentConnected, this`agentState,
               this`audio, this`trace
      ensures main == if ch.kind.MainChannel? then Some(ch.handle) else old(main)
      ensures mouseState == if ch.kind.MainChannel? then Some(MouseLabel(ch.kind.mouseMode)) else old(mouseState)
      ensures agentConnected == if ch.kind.MainChannel? then ch.kind.agentConnected else old(agentConnected)
      ensures agentState == if ch.kind.MainChannel? then Some(AgentLabel(ch.kind.agentConnected)) else old(agentState)
      ensures audio == if ch.kind == PlaybackChannel then sessionAudio else old(audio)
      ensures trace == old(trace) + if ConnectsOnAnnounce(ch, wins[..]) then [Connect(ch.handle)] else []
    {
      match ch.kind {
        case MainChannel(mode, connected) =>
          main := Some(ch.handle);
          MainMouseUpdate(mode);
          MainAgentUpdate(connected);
        case DisplayChannel =>
          if ch.id >= wins.Length {
            return;
          }
          if wins[ch.id].Some? {
            return;
          }
          trace := trace + [Connect(ch.handle)];
        case PlaybackChannel =>
          audio := sessionAudio;
        case PortChannel =>
          trace := trace + [Connect(ch.handle)];
        case _ =>
      }
    }
  }
}
