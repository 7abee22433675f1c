/**
 * The live telemetry client: it reads the latest row of `telemetrie_stroje`,
 * subscribes to its changes and keeps a connection state
 * (disconnected, connecting, connected, stale, error) that its listeners
 * follow. A watchdog marks a connected client stale when no data has come
 * for 60 seconds.
 *
 * The database, the realtime channel and the timer are outside: their
 * answers and callbacks are the parameters and the methods of the class.
 * Listeners are identified by numbers; what a listener does with a
 * notification is outside, the model records each delivery in order.
 */
module RealtimeClient {
  import opened Common
  import opened Strings

  datatype RtkStatus = Fix | Float | NoFix | UnknownRtk
  datatype Mode = Manual | SemiAuto | Autonomous | Idle

  /** The status's text as the dashboard shows it. */
  function RtkName(s: RtkStatus): string
  {
    match s
    case Fix => "FIX"
    case Float => "FLOAT"
    case NoFix => "NONE"
    case UnknownRtk => "unknown"
  }

  function ModeName(m: Mode): string
  {
    match m
    case Manual => "manual"
    case SemiAuto => "semi-auto"
    case Autonomous => "autonomous"
    case Idle => "idle"
  }

  /** `mapRtkStatus`: the raw status compared case-insensitively with FIX, FLOAT and NONE. */
  function MapRtkStatus(raw: Option<string>): (r: RtkStatus)
    ensures r == Fix <==> TruthyText(raw) && Upper(raw.value) == "FIX"
    ensures r == Float <==> TruthyText(raw) && Upper(raw.value) == "FLOAT"
    ensures r == NoFix <==> TruthyText(raw) && Upper(raw.value) == "NONE"
    ensures !TruthyText(raw) ==> r == UnknownRtk
  {
    if !TruthyText(raw) then UnknownRtk
    else
      var upper := Upper(raw.value);
      if upper == "FIX" then Fix
      else if upper == "FLOAT" then Float
      else if upper == "NONE" then NoFix
      else UnknownRtk
  }

  /** `mapMode`: the raw mode compared case-insensitively with the three driving modes. */
  function MapMode(raw: Option<string>): (r: Mode)
    ensures r == Autonomous <==> TruthyText(raw) && Lower(raw.value) == "autonomous"
    ensures r == SemiAuto <==> TruthyText(raw) && Lower(raw.value) == "semi-auto"
    ensures r == Manual <==> TruthyText(raw) && Lower(raw.value) == "manual"
    ensures !TruthyText(raw) ==> r == Idle
  {
    if !TruthyText(raw) then Idle
    else
      var lower := Lower(raw.value);
      if lower == "autonomous" then Autonomous
      else if lower == "semi-auto" then SemiAuto
      else if lower == "manual" then Manual
      else Idle
  }

  /** A status's own name maps back to it. */
  lemma RtkNameRoundTrip(s: RtkStatus)
    ensures MapRtkStatus(Some(RtkName(s))) == s
  {
    var n := RtkName(s);
    assert Upper(n) == [UpperChar(n[0])] + Upper(n[1..]);
    if s == UnknownRtk {
      assert Upper(n)[0] == 'U';
    }
  }

  /** A mode's own name maps back to it. */
  lemma ModeNameRoundTrip(m: Mode)
    ensures MapMode(Some(ModeName(m))) == m
  {
    var n := ModeName(m);
    assert Lower(n) == n;
  }

  lemma UpperAfterLower(c: char)
    ensures UpperChar(LowerChar(c)) == UpperChar(c)
  {
  }

  lemma LowerAfterUpper(c: char)
    ensures LowerChar(UpperChar(c)) == LowerChar(c)
  {
  }

  /** The case of the raw status does not matter. */
  lemma RtkCaseInsensitive(raw: string)
    ensures MapRtkStatus(Some(Lower(raw))) == MapRtkStatus(Some(raw))
  {
    forall i | 0 <= i < |raw| ensures Upper(Lower(raw))[i] == Upper(raw)[i] {
      UpperAfterLower(raw[i]);
    }
    assert Upper(Lower(raw)) == Upper(raw);
  }

  /** The case of the raw mode does not matter. */
  lemma ModeCaseInsensitive(raw: string)
    ensures MapMode(Some(Upper(raw))) == MapMode(Some(raw))
  {
    forall i | 0 <= i < |raw| ensures Lower(Upper(raw))[i] == Lower(raw)[i] {
      LowerAfterUpper(raw[i]);
    }
    assert Lower(Upper(raw)) == Lower(raw);
  }

  /** A row of `telemetrie_stroje`, each column possibly null. */
  datatype TelemetryRow = TelemetryRow(
    latitude: Option<real>,
    longitude: Option<real>,
    rtkStatus: Option<string>,
    speed: Option<real>,
    batteryLevel: Option<real>,
    mode: Option<string>,
    sMode: Option<real>,
    mth: Option<real>,
    hdop: Option<real>,
    updatedAt: string)

  /** A position in degrees. */
  datatype LatLng = LatLng(lat: real, lng: real)

  /** The telemetry the client hands to its listeners. */
  datatype Telemetry = Telemetry(
    rtkStatus: RtkStatus,
    speed: real,
    position: Option<LatLng>,
    gpsStatus: string,
    batteryLevel: Option<real>,
    mode: Mode,
    sMode: Option<real>,
    mth: real,
    hdop: Option<real>,
    timestamp: string)

  /**
   * `rowToTelemetry`: a position only when both coordinates are truthy (a
   * zero coordinate counts as none), speed and MTH default to 0, the raw
   * status stays the GPS status text, and missing battery, S-mode and HDOP
   * stay missing.
   */
  function RowToTelemetry(row: TelemetryRow): (t: Telemetry)
    ensures t.position.Some? <==> TruthyNum(row.latitude) && TruthyNum(row.longitude)
    ensures t.position.Some? ==> t.position.value == LatLng(row.latitude.value, row.longitude.value)
    ensures t.speed == OrZero(row.speed) && t.mth == OrZero(row.mth)
    ensures TruthyText(row.rtkStatus) ==> t.gpsStatus == row.rtkStatus.value
    ensures !TruthyText(row.rtkStatus) ==> t.gpsStatus == "unknown" && t.rtkStatus == UnknownRtk
    ensures t.rtkStatus == MapRtkStatus(row.rtkStatus) && t.mode == MapMode(row.mode)
    ensures t.batteryLevel == row.batteryLevel && t.sMode == row.sMode && t.hdop == row.hdop
  {
    Telemetry(
      MapRtkStatus(row.rtkStatus),
      OrZero(row.speed),
      if TruthyNum(row.latitude) && TruthyNum(row.longitude)
        then Some(LatLng(row.latitude.value, row.longitude.value)) else None,
      if TruthyText(row.rtkStatus) then row.rtkStatus.value else "unknown",
      row.batteryLevel,
      MapMode(row.mode),
      row.sMode,
      OrZero(row.mth),
      row.hdop,
      row.updatedAt)
  }

  /** A row without a position still gives speed and MTH as numbers. */
  lemma MissingValuesDefault(row: TelemetryRow)
    requires row.speed.None? && row.mth.None? && row.latitude == Some(0.0)
    ensures var t := RowToTelemetry(row); t.speed == 0.0 && t.mth == 0.0 && t.position.None?
  {
  }

  datatype ConnectionState = Disconnected | Connecting | Connected | Stale | Error

  /** The statuses the channel reports to its subscribe callback. */
  datatype ChannelStatus = Subscribed | ChannelError | Closed | TimedOut

  /** The answer to the initial read of the latest row. */
  datatype InitialRead = ReadError | NoRow | Latest(row: TelemetryRow) | Thrown

  /** How long the watchdog waits for data before marking the client stale, in milliseconds. */
  const WatchdogTimeout: nat := 60000

  /** The events that move the connection state. */
  datatype Event =
    | ConnectStarted
    | ConnectThrew
    | Status(status: ChannelStatus)
    | Data
    | WatchdogExpired
    | DisconnectCalled

  /** The connection state after an event: the client's state machine. */
  function Next(s: ConnectionState, e: Event): (t: ConnectionState)
    ensures e == DisconnectCalled ==> t == Disconnected
    ensures e == WatchdogExpired ==> (s == Connected ==> t == Stale) && (s != Connected ==> t == s)
  {
    match e
    case ConnectStarted => if s == Connecting || s == Connected then s else Connecting
    case ConnectThrew => Error
    case Status(st) =>
      (match st
       case Subscribed => Connected
       case ChannelError => Error
       case Closed => Disconnected
       case TimedOut => s)
    case Data => if s == Stale then Connected else s
    case WatchdogExpired => if s == Connected then Stale else s
    case DisconnectCalled => Disconnected
  }

  /** Data brings a stale client back and leaves every other state alone. */
  lemma DataRestores(s: ConnectionState)
    ensures Next(s, Data) == (if s == Stale then Connected else s)
    ensures Next(Next(s, WatchdogExpired), Data) == (if s == Stale || s == Connected then Connected else s)
  {
  }

  /** Connecting twice is connecting once. */
  lemma ConnectIdempotent(s: ConnectionState)
    ensures Next(Next(s, ConnectStarted), ConnectStarted) == Next(s, ConnectStarted)
    ensures Next(s, ConnectStarted) == Connecting || Next(s, ConnectStarted) == Connected
  {
  }

  /** Each listener in order, paired with what it is told. */
  function Deliveries<T>(listeners: seq<nat>, x: T): (d: seq<(nat, T)>)
    ensures |d| == |listeners|
    ensures forall i :: 0 <= i < |d| ==> d[i] == (listeners[i], x)
  {
    seq(|listeners|, i requires 0 <= i < |listeners| => (listeners[i], x))
  }

  /** Unsubscribing: the listener's registrations are removed, the others kept in order. */
  function Without(listeners: seq<nat>, id: nat): (r: seq<nat>)
    ensures id !in r
    ensures forall x :: x != id ==> (x in r <==> x in listeners)
    ensures id !in listeners ==> r == listeners
  {
    var r := Filter(listeners, (l: nat) => l != id);
    assert id !in listeners ==> r == listeners by {
      if id !in listeners {
        FilterAll(listeners, id);
      }
    }
    r
  }

  lemma {:induction false} FilterAll(listeners: seq<nat>, id: nat)
    requires id !in listeners
    ensures Filter(listeners, (l: nat) => l != id) == listeners
  {
    if listeners != [] {
      FilterAll(listeners[1..], id);
      assert listeners == [listeners[0]] + listeners[1..];
    }
  }

  /** Unsubscribing right after subscribing a new listener gives the list back. */
  lemma SubscribeUnsubscribe(listeners: seq<nat>, id: nat)
    requires id !in listeners
    ensures Without(listeners + [id], id) == listeners
  {
    var keep := (l: nat) => l != id;
    FilterSnoc(listeners, id, keep);
    FilterAll(listeners, id);
  }

  /** The `forEach` over the listeners. */
  method Deliver<T>(listeners: seq<nat>, x: T) returns (d: seq<(nat, T)>)
    ensures d == Deliveries(listeners, x)
  {
    d := [];
    var i := 0;
    while i < |listeners|
      invariant 0 <= i <= |listeners|
      invariant d == Deliveries(listeners[..i], x)
    {
      d := d + [(listeners[i], x)];
      i := i + 1;
    }
    assert listeners[..i] == listeners;
  }

  /** The client's state. */
  class Client {
    var state: ConnectionState
    var telemetryListeners: seq<nat>
    var connectionListeners: seq<nat>
    /** `this.channel !== null`: the client holds a channel it can release. */
    var channel: bool
    /**
     * The channels subscribed and not yet removed. `connect` overwrites
     * `this.channel` without removing the previous one. The model assumes
     * that every `supabase.channel('telemetry-live')` call yields a new
     * channel, even when the topic name is reused; under that assumption a
     * reconnect from the error or disconnected state leaves more than one
     * channel open.
     */
    var openChannels: nat
    var lastTelemetry: Option<Telemetry>
    var watchdogArmed: bool
    /** Every connection-state notification delivered so far, in order. */
    var stateLog: seq<(nat, ConnectionState)>
    /** Every telemetry notification delivered so far, in order. */
    var telemetryLog: seq<(nat, Telemetry)>

    constructor ()
      ensures state == Disconnected && telemetryListeners == [] && connectionListeners == []
      ensures !channel && openChannels == 0 && lastTelemetry.None? && !watchdogArmed && stateLog == [] && telemetryLog == []
      ensures Valid()
    {
      state := Disconnected;
      telemetryListeners := [];
      connectionListeners := [];
      channel := false;
      openChannels := 0;
      lastTelemetry := None;
      watchdogArmed := false;
      stateLog := [];
      telemetryLog := [];
    }

    /** A held channel is one of the open ones. */
    predicate Valid()
      reads this
    {
      channel ==> openChannels > 0
    }

    predicate IsConnected()
      reads this
    {
      state == Connected
    }

    /** `setConnectionState`: the new state, told to every connection listener. */
    method SetState(s: ConnectionState)
      modifies this
      ensures state == s
      ensures stateLog == old(stateLog) + Deliveries(connectionListeners, s)
      ensures telemetryListeners == old(telemetryListeners) && connectionListeners == old(connectionListeners)
      ensures channel == old(channel) && openChannels == old(openChannels) && lastTelemetry == old(lastTelemetry)
      ensures watchdogArmed == old(watchdogArmed) && telemetryLog == old(telemetryLog)
    {
      state := s;
      var d := Deliver(connectionListeners, s);
      stateLog := stateLog + d;
    }

    /** New telemetry, kept as the latest and told to every telemetry listener. */
    method Publish(t: Telemetry)
      modifies this
      ensures lastTelemetry == Some(t)
      ensures telemetryLog == old(telemetryLog) + Deliveries(telemetryListeners, t)
      ensures state == old(state) && stateLog == old(stateLog)
      ensures telemetryListeners == old(telemetryListeners) && connectionListeners == old(connectionListeners)
      ensures channel == old(channel) && openChannels == old(openChannels) && watchdogArmed == old(watchdogArmed)
    {
      lastTelemetry := Some(t);
      var d := Deliver(telemetryListeners, t);
      telemetryLog := telemetryLog + d;
    }

    /**
     * `connect`: nothing while connecting or connected; otherwise the state
     * becomes connecting, the latest row (if read) is published and the
     * channel is opened; a thrown error instead ends in the error state.
     * The channel held before is not removed; the model counts the new one
     * as one more open channel (a new channel per call is assumed).
     */
    method Connect(initial: InitialRead)
      requires Valid()
      modifies this
      ensures Valid()
      ensures old(state) == Connecting || old(state) == Connected ==>
        state == old(state) && stateLog == old(stateLog) && telemetryLog == old(telemetryLog)
        && channel == old(channel) && openChannels == old(openChannels) && lastTelemetry == old(lastTelemetry)
      ensures old(state) != Connecting && old(state) != Connected && initial.Thrown? ==>
        state == Error && channel == old(channel) && openChannels == old(openChannels)
        && stateLog == old(stateLog) + Deliveries(connectionListeners, Connecting) + Deliveries(connectionListeners, Error)
      ensures old(state) != Connecting && old(state) != Connected && !initial.Thrown? ==>
        state == Connecting && channel && openChannels == old(openChannels) + 1
        && stateLog == old(stateLog) + Deliveries(connectionListeners, Connecting)
      ensures old(state) != Connecting && old(state) != Connected && initial.Latest? ==>
        lastTelemetry == Some(RowToTelemetry(initial.row))
        && telemetryLog == old(telemetryLog) + Deliveries(telemetryListeners, RowToTelemetry(initial.row))
      ensures !initial.Latest? ==> lastTelemetry == old(lastTelemetry) && telemetryLog == old(telemetryLog)
      ensures telemetryListeners == old(telemetryListeners) && connectionListeners == old(connectionListeners)
      ensures watchdogArmed == old(watchdogArmed)
    {
      if state == Connecting || state == Connected {
        return;
      }
      SetState(Connecting);
      match initial {
        case Thrown =>
          SetState(Error);
        case ReadError =>
          channel, openChannels := true, openChannels + 1;
        case NoRow =>
          channel, openChannels := true, openChannels + 1;
        case Latest(row) =>
          Publish(RowToTelemetry(row));
          channel, openChannels := true, openChannels + 1;
      }
    }

    /** The subscribe callback: subscribed, channel error and closed set the state; other statuses are ignored. */
    method OnStatus(status: ChannelStatus)
      modifies this
      ensures state == Next(old(state), Status(status))
      ensures status != TimedOut ==> stateLog == old(stateLog) + Deliveries(connectionListeners, state)
      ensures status == TimedOut ==> stateLog == old(stateLog)
      ensures telemetryListeners == old(telemetryListeners) && connectionListeners == old(connectionListeners)
      ensures channel == old(channel) && openChannels == old(openChannels) && lastTelemetry == old(lastTelemetry)
      ensures watchdogArmed == old(watchdogArmed) && telemetryLog == old(telemetryLog)
    {
      match status {
        case Subscribed => SetState(Connected);
        case ChannelError => SetState(Error);
        case Closed => SetState(Disconnected);
        case TimedOut =>
      }
    }

    /**
     * `resetWatchdog`: the timer is cleared, and re-armed only when
     * connected or stale; a stale client becomes connected again.
     */
    method ResetWatchdog()
      modifies this
      ensures state == Next(old(state), Data)
      ensures watchdogArmed <==> old(state) == Connected || old(state) == Stale
      ensures old(state) == Stale ==> stateLog == old(stateLog) + Deliveries(connectionListeners, Connected)
      ensures old(state) != Stale ==> stateLog == old(stateLog)
      ensures telemetryListeners == old(telemetryListeners) && connectionListeners == old(connectionListeners)
      ensures channel == old(channel) && openChannels == old(openChannels) && lastTelemetry == old(lastTelemetry) && telemetryLog == old(telemetryLog)
    {
      watchdogArmed := false;
      if state == Connected || state == Stale {
        if state == Stale {
          SetState(Connected);
        }
        watchdogArmed := true;
      }
    }

    /** A change on the channel: a non-empty row is published and resets the watchdog; an empty one is ignored. */
    method OnChange(payload: Option<TelemetryRow>)
      modifies this
      ensures payload.None? ==>
        state == old(state) && stateLog == old(stateLog) && telemetryLog == old(telemetryLog)
        && lastTelemetry == old(lastTelemetry) && watchdogArmed == old(watchdogArmed)
      ensures payload.Some? ==>
        lastTelemetry == Some(RowToTelemetry(payload.value))
        && telemetryLog == old(telemetryLog) + Deliveries(telemetryListeners, RowToTelemetry(payload.value))
        && state == Next(old(state), Data)
        && (watchdogArmed <==> old(state) == Connected || old(state) == Stale)
      ensures telemetryListeners == old(telemetryListeners) && connectionListeners == old(connectionListeners)
      ensures channel == old(channel) && openChannels == old(openChannels)
    {
      if payload.Some? {
        Publish(RowToTelemetry(payload.value));
        ResetWatchdog();
      }
    }

    /** The watchdog fires: only a connected client becomes stale. */
    method OnWatchdog()
      requires watchdogArmed
      modifies this
      ensures state == Next(old(state), WatchdogExpired)
      ensures !watchdogArmed
      ensures old(state) == Connected ==> stateLog == old(stateLog) + Deliveries(connectionListeners, Stale)
      ensures old(state) != Connected ==> stateLog == old(stateLog)
      ensures telemetryListeners == old(telemetryListeners) && connectionListeners == old(connectionListeners)
      ensures channel == old(channel) && openChannels == old(openChannels) && lastTelemetry == old(lastTelemetry) && telemetryLog == old(telemetryLog)
    {
      watchdogArmed := false;
      if state == Connected {
        SetState(Stale);
      }
    }

    /** `disconnect`: the watchdog cleared, the held channel (only that one) released, the state disconnected. */
    method Disconnect()
      requires Valid()
      modifies this
      ensures Valid()
      ensures state == Disconnected && !watchdogArmed && !channel
      ensures openChannels == old(openChannels) - (if old(channel) then 1 else 0)
      ensures stateLog == old(stateLog) + Deliveries(connectionListeners, Disconnected)
      ensures telemetryListeners == old(telemetryListeners) && connectionListeners == old(connectionListeners)
      ensures lastTelemetry == old(lastTelemetry) && telemetryLog == old(telemetryLog)
    {
      watchdogArmed := false;
      if channel {
        channel, openChannels := false, openChannels - 1;
      }
      SetState(Disconnected);
    }

    /** `onTelemetry`: the listener is added at the end. */
    method OnTelemetry(id: nat)
      modifies this
      ensures telemetryListeners == old(telemetryListeners) + [id]
      ensures state == old(state) && connectionListeners == old(connectionListeners) && channel == old(channel) && openChannels == old(openChannels)
      ensures lastTelemetry == old(lastTelemetry) && watchdogArmed == old(watchdogArmed)
      ensures stateLog == old(stateLog) && telemetryLog == old(telemetryLog)
    {
      telemetryListeners := telemetryListeners + [id];
    }

    /** The function `onTelemetry` returns: that listener is removed, the others kept. */
    method OffTelemetry(id: nat)
      modifies this
      ensures telemetryListeners == Without(old(telemetryListeners), id)
      ensures state == old(state) && connectionListeners == old(connectionListeners) && channel == old(channel) && openChannels == old(openChannels)
      ensures lastTelemetry == old(lastTelemetry) && watchdogArmed == old(watchdogArmed)
      ensures stateLog == old(stateLog) && telemetryLog == old(telemetryLog)
    {
      telemetryListeners := Without(telemetryListeners, id);
    }

    /** `onConnectionChange`: the listener is added at the end. */
    method OnConnectionChange(id: nat)
      modifies this
      ensures connectionListeners == old(connectionListeners) + [id]
      ensures state == old(state) && telemetryListeners == old(telemetryListeners) && channel == old(channel) && openChannels == old(openChannels)
      ensures lastTelemetry == old(lastTelemetry) && watchdogArmed == old(watchdogArmed)
      ensures stateLog == old(stateLog) && telemetryLog == old(telemetryLog)
    {
      connectionListeners := connectionListeners + [id];
    }

    /** The function `onConnectionChange` returns: that listener is removed, the others kept. */
    method OffConnectionChange(id: nat)
      modifies this
      ensures connectionListeners == Without(old(connectionListeners), id)
      ensures state == old(state) && telemetryListeners == old(telemetryListeners) && channel == old(channel) && openChannels == old(openChannels)
      ensures lastTelemetry == old(lastTelemetry) && watchdogArmed == old(watchdogArmed)
      ensures stateLog == old(stateLog) && telemetryLog == old(telemetryLog)
    {
      connectionListeners := Without(connectionListeners, id);
    }
  }

  /**
   * A channel error followed by a reconnect (the Connect button offered in
   * the error state) leaves two channels open when each `connect` yields a
   * new channel, as the model assumes; `disconnect` then releases only the
   * one held.
   */
  method ReconnectAfterErrorLeaks() returns (openAfterReconnect: nat, openAfterDisconnect: nat)
    ensures openAfterReconnect == 2 && openAfterDisconnect == 1
  {
    var c := new Client();
    c.Connect(NoRow);
    c.OnStatus(ChannelError);
    c.Connect(NoRow);
    openAfterReconnect := c.openChannels;
    c.Disconnect();
    openAfterDisconnect := c.openChannels;
  }
}
