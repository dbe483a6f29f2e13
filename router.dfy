/** The small projections the connection makes from channel notifications:
    the mouse-mode and agent labels, which lifecycle events end the session,
    and which newly announced channels are asked to connect. */
module Router {
  import opened Wrappers
  import opened SessionApi
  import opened WindowTable

  /** `main_mouse_update`: server mode reads "server", client mode "client",
      any other value "?". */
  function MouseLabel(mode: MouseMode): (text: string)
    ensures text == "server" <==> mode == ServerMode
    ensures text == "client" <==> mode == ClientMode
    ensures text == "?" <==> mode.OtherMode?
  {
    match mode
    case ServerMode => "server"
    case ClientMode => "client"
    case OtherMode(_) => "?"
  }

  /** `main_agent_update`: "yes" exactly when an agent is connected. */
  function AgentLabel(connected: bool): (text: string)
    ensures text == "yes" <==> connected
    ensures text == "no" <==> !connected
  {
    if connected then "yes" else "no"
  }

  /** `main_channel_event`: a closed channel or an I/O error disconnects the
      session; every other event, unknown codes included, only logs. */
  function EventCommands(event: ChannelEvent): (cs: seq<Command>)
    ensures cs == [Disconnect] <==> event == Closed || event == ErrorIo
    ensures cs != [Disconnect] ==> cs == []
  {
    match event
    case Closed => [Disconnect]
    case ErrorIo => [Disconnect]
    case _ => []
  }

  /** `channel_new`: a display channel is connected when its id is below the
      table's capacity and the slot with that raw index is empty; a port
      channel always; no other kind. */
  function ConnectsOnAnnounce(ch: Channel, t: Table): (connect: bool)
    requires |t| == TableSize
    ensures connect ==> ch.kind == DisplayChannel || ch.kind == PortChannel
    ensures ch.kind == PortChannel ==> connect
  {
    match ch.kind
    case DisplayChannel => ch.id < TableSize && t[ch.id].None?
    case PortChannel => true
    case _ => false
  }

  /** The display guard consults the record of monitor `id % 4` of channel
      `id / 4`, not any record of channel `id` itself. */
  lemma DisplayGuardSlot(ch: Channel, t: Table)
    requires |t| == TableSize && ch.kind == DisplayChannel
    ensures ConnectsOnAnnounce(ch, t) <==>
      ch.id < TableSize && Lookup(t, SlotChannel(ch.id), SlotMonitor(ch.id)).None?
  {
    if ch.id < TableSize {
      SlotUnpacking(ch.id);
    }
  }

  /** Two consequences: display channel 1 is refused once monitor 1 of channel
      0 has a record, although channel 1 has none; and display channel 1 is
      connected again while all four of its own monitors have records, as long
      as slot 1 is empty. */
  lemma DisplayGuardQuirk(h: ChannelRef, d: ChannelRef)
    ensures var t := EmptyTable()[1 := Some(NewWindow(d, 0, 1))];
      (forall m :: Lookup(t, 1, m).None?) &&
      !ConnectsOnAnnounce(Channel(h, 1, DisplayChannel), t)
    ensures var t := EmptyTable()[4 := Some(NewWindow(d, 1, 0))][5 := Some(NewWindow(d, 1, 1))]
                                 [6 := Some(NewWindow(d, 1, 2))][7 := Some(NewWindow(d, 1, 3))];
      (forall m: nat :: m < MonitorIdMax ==> Lookup(t, 1, m).Some?) &&
      ConnectsOnAnnounce(Channel(h, 1, DisplayChannel), t)
  {
    var t := EmptyTable()[4 := Some(NewWindow(d, 1, 0))][5 := Some(NewWindow(d, 1, 1))]
                         [6 := Some(NewWindow(d, 1, 2))][7 := Some(NewWindow(d, 1, 3))];
    forall m: nat | m < MonitorIdMax
      ensures Lookup(t, 1, m).Some?
    {
      assert Slot(1, m) == 4 + m;
    }
  }
}
