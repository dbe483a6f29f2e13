/** The optional value used wherever the C code keeps a pointer that may be NULL. */
module Wrappers {
  datatype Option<T> = None | Some(value: T)
}

/** The surface of the remote-display client library that the resize client
    consumes: handles to objects the session owns, the properties it reads from
    them, and the calls it makes into the library, recorded as abstract commands
    in the order they are issued. */
module SessionApi {

  /** Identity of a channel object owned by the session (a weak reference). */
  type ChannelRef = nat

  /** Identity of the audio object handed out by the session. */
  type AudioRef = nat

  /** One call into the library. */
  datatype Command =
      /** enable or disable one logical display on the main channel */
    | Enable(index: int, enabled: bool, flag: bool)
      /** set the geometry of one logical display on the main channel */
    | Update(index: int, x: int, y: int, width: int, height: int, flag: bool)
      /** commit the pending monitor configuration */
    | SendConfig
      /** disconnect the whole session */
    | Disconnect
      /** ask a channel to connect */
    | Connect(channel: ChannelRef)

  /** The "mouse-mode" property of the main channel. */
  datatype MouseMode = ServerMode | ClientMode | OtherMode(code: int)

  /** The lifecycle events a channel reports; `Unknown` stands for any code
      outside the named ones. */
  datatype ChannelEvent =
    | Opened | Switching | Closed
    | ErrorConnect | ErrorTls | ErrorLink | ErrorAuth | ErrorIo
    | Unknown(code: int)

  /** The type of a newly announced channel. A main channel carries the two
      properties the client pulls from it as soon as it appears. */
  datatype ChannelKind =
    | MainChannel(mouseMode: MouseMode, agentConnected: bool)
    | DisplayChannel
    | InputsChannel
    | PlaybackChannel
    | UsbRedirChannel
    | PortChannel
    | OtherChannel

  /** A channel as the "channel-new" notification presents it: its handle,
      its "channel-id" property and its type. */
  datatype Channel = Channel(handle: ChannelRef, id: nat, kind: ChannelKind)
}
