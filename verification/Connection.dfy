/**
 Connection ownership: src/bluetooth/manager.ts, helper-transport.ts and the
 initialisation of src/bluetooth/device-session.ts.

 The helper process is a contract: each native call may fail, and a successful
 connect answers with a session id that is not in use. `live` are the ids it
 handed out whose disconnect has not been requested.
 */
module Connection {
  import opened Wrappers

  type SessionId = nat
  type Address = string

  datatype Error = AlreadyConnected | TransportClosed | Native(message: string)

  // ---------------------------------------------------------------------
  // Which failures are worth a retry.

  predicate OccursAt(s: string, part: string, i: int) {
    0 <= i <= |s| - |part| && s[i..i + |part|] == part
  }

  predicate Contains(s: string, part: string) {
    exists i | 0 <= i <= |s| :: OccursAt(s, part, i)
  }

  function ToLowerCase(s: string): (r: string)
    ensures |r| == |s|
  {
    seq(|s|, i requires 0 <= i < |s| => if 'A' <= s[i] <= 'Z' then (s[i] as int + 32) as char else s[i])
  }

  function Message(e: Error): string {
    match e
    case AlreadyConnected => "Helper transport is already connected"
    case TransportClosed => "Helper transport is not connected"
    case Native(message) => message
  }

  const UNREACHABLE_TEXT := "unreachable"
  const GATT_UNREACHABLE_TEXT := "enumerate GATT services: unreachable"
  const GATT_FAILED_UNREACHABLE_TEXT := "failed to enumerate GATT services: unreachable"

  predicate IsRetryable(e: Error) {
    var normalized := ToLowerCase(Message(e));
    Contains(normalized, GATT_UNREACHABLE_TEXT) ||
    Contains(normalized, GATT_FAILED_UNREACHABLE_TEXT) ||
    Contains(normalized, UNREACHABLE_TEXT)
  }

  /** Of the three texts only the shortest ever decides: the other two hold capitals, and never match. */
  lemma RetryableExactly(e: Error)
    ensures IsRetryable(e) <==> Contains(ToLowerCase(Message(e)), "unreachable")
    ensures !Contains(ToLowerCase(Message(e)), GATT_UNREACHABLE_TEXT)
    ensures !Contains(ToLowerCase(Message(e)), GATT_FAILED_UNREACHABLE_TEXT)
  {
    hide Contains, Message;
    var s := ToLowerCase(Message(e));
    assert GATT_UNREACHABLE_TEXT[10] == 'G' && GATT_FAILED_UNREACHABLE_TEXT[20] == 'G';
    MissingLetter(s, GATT_UNREACHABLE_TEXT, 10);
    MissingLetter(s, GATT_FAILED_UNREACHABLE_TEXT, 20);
  }

  /** Lower case has no capitals, leaves everything else, and keeps the letters. */
  lemma LowerCase(s: string)
    ensures forall i :: 0 <= i < |s| ==>
              !('A' <= ToLowerCase(s)[i] <= 'Z') && (!('A' <= s[i] <= 'Z') ==> ToLowerCase(s)[i] == s[i])
    ensures ToLowerCase("AMZ") == "amz"
  {
  }

  /** A transport that is connected already is not worth a retry. */
  lemma AlreadyConnectedStops()
    ensures Message(AlreadyConnected) == "Helper transport is already connected"
    ensures Message(TransportClosed) == "Helper transport is not connected"
    ensures !IsRetryable(AlreadyConnected)
  {
    RetryableExactly(AlreadyConnected);
    MissingLetter(ToLowerCase(Message(AlreadyConnected)), UNREACHABLE_TEXT, 0);
  }

  lemma MissingLetter(s: string, part: string, k: nat)
    requires k < |part| && forall i :: 0 <= i < |s| ==> s[i] != part[k]
    ensures !Contains(s, part)
  {
    forall i | OccursAt(s, part, i)
      ensures s[i + k] == part[k]
    {
      assert s[i..i + |part|][k] == s[i + k];
    }
  }

  // ---------------------------------------------------------------------
  // The helper, as its callers see it.

  /** A requested native disconnect. */
  datatype Release = Release(id: SessionId, failure: Option<Error>)

  class NativeHelper {
    var lastId: nat
    ghost var live: set<SessionId>
    ghost var released: seq<Release>

    ghost predicate Valid()
      reads this
    {
      forall id :: id in live ==> id <= lastId
    }

    method Connect(address: Address) returns (r: Result<SessionId, Error>)
      requires Valid()
      modifies this
      ensures Valid()
      ensures r.Ok? ==> r.value !in old(live) && live == old(live) + {r.value}
      ensures r.Err? ==> r.error.Native? && live == old(live)
    {
      var failure := Try();
      if failure.Some? {
        return Err(failure.value);
      }
      lastId := lastId + 1;
      live := live + {lastId};
      return Ok(lastId);
    }

    method Disconnect(id: SessionId) returns (failure: Option<Error>)
      requires Valid()
      modifies this
      ensures Valid() && live == old(live) - {id} && released == old(released) + [Release(id, failure)]
      ensures failure.Some? ==> failure.value.Native?
    {
      live := live - {id};
      failure := Try();
      released := released + [Release(id, failure)];
    }

    /** Any other native call. */
    method Try() returns (failure: Option<Error>)
      ensures failure.Some? ==> failure.value.Native?
    {
      var fails: bool := *;
      if !fails {
        return None;
      }
      var message: string := *;
      return Some(Native(message));
    }
  }

  // ---------------------------------------------------------------------
  // One transport.

  /** A transport call, with its error. */
  datatype Op =
    | Connect(failure: Option<Error>)
    | ReadName(uuid: string, failure: Option<Error>)
    | Subscribe(uuid: string, failure: Option<Error>)
    | Disconnect(failure: Option<Error>)

  class HelperTransport {
    const client: NativeHelper
    var sessionId: Option<SessionId>
    var listening: bool
    var subscribers: map<string, DeviceSession>
    ghost var trace: seq<Op>

    constructor (client: NativeHelper)
      ensures this.client == client && sessionId == None && Valid() && trace == []
    {
      this.client := client;
      sessionId := None;
      listening := false;
      subscribers := map[];
      trace := [];
    }

    /** Listening and subscriptions exist only with a native session. */
    ghost predicate Valid()
      reads this
    {
      (listening <==> sessionId.Some?) && (sessionId.None? ==> subscribers == map[])
    }

    /** The native sessions this transport holds. */
    ghost function Held(): set<SessionId>
      reads this
    {
      if sessionId.Some? then {sessionId.value} else {}
    }

    method Connect(address: Address) returns (failure: Option<Error>)
      requires Valid() && client.Valid()
      modifies this, client
      ensures Valid() && client.Valid() && trace == old(trace) + [Op.Connect(failure)]
      ensures subscribers == old(subscribers)
      ensures old(sessionId).Some? ==>
                failure == Some(AlreadyConnected) && sessionId == old(sessionId) && client.live == old(client.live)
      ensures old(sessionId).None? && failure.None? ==>
                sessionId.Some? && sessionId.value !in old(client.live) &&
                client.live == old(client.live) + {sessionId.value}
      ensures old(sessionId).None? && failure.Some? ==>
                failure.value.Native? && sessionId == None && client.live == old(client.live)
    {
      if sessionId.Some? {
        trace := trace + [Op.Connect(Some(AlreadyConnected))];
        return Some(AlreadyConnected);
      }
      var connection := client.Connect(address);
      if connection.Err? {
        trace := trace + [Op.Connect(Some(connection.error))];
        return Some(connection.error);
      }
      sessionId := Some(connection.value);
      failure := client.Try();
      if failure.Some? {
        sessionId := None;
        var _ := client.Disconnect(connection.value);
      } else {
        listening := true;
      }
      trace := trace + [Op.Connect(failure)];
    }

    method Disconnect() returns (failure: Option<Error>)
      requires Valid() && client.Valid()
      modifies this, client
      ensures Valid() && client.Valid() && trace == old(trace) + [Op.Disconnect(failure)]
      ensures sessionId == None && client.live == old(client.live) - old(Held())
      ensures client.released == old(client.released) +
              if old(sessionId).Some? then [Release(old(sessionId).value, failure)] else []
    {
      var held := sessionId;
      sessionId := None;
      listening := false;
      subscribers := map[];
      failure := None;
      if held.Some? {
        failure := client.Disconnect(held.value);
      }
      trace := trace + [Op.Disconnect(failure)];
    }

    method ReadCharacteristic(uuid: string) returns (r: Result<string, Error>)
      requires Valid()
      modifies this`trace
      ensures Valid() && trace == old(trace) + [ReadName(uuid, if r.Ok? then None else Some(r.error))]
      ensures sessionId.None? <==> r == Err(TransportClosed)
      ensures r.Err? ==> r.error != AlreadyConnected
    {
      if sessionId.None? {
        r := Err(TransportClosed);
      } else {
        var failure := client.Try();
        if failure.Some? {
          r := Err(failure.value);
        } else {
          var bytes: string := *;
          r := Ok(bytes);
        }
      }
      trace := trace + [ReadName(uuid, if r.Ok? then None else Some(r.error))];
    }

    /** A failed subscription leaves the earlier subscriber in place, or none. */
    method Subscribe(uuid: string, onData: DeviceSession) returns (failure: Option<Error>)
      requires Valid()
      modifies this`subscribers, this`trace
      ensures Valid() && trace == old(trace) + [Op.Subscribe(uuid, failure)]
      ensures subscribers == if failure.None? then old(subscribers)[ToLowerCase(uuid) := onData] else old(subscribers)
      ensures failure == Some(TransportClosed) <==> sessionId.None?
      ensures failure.Some? ==> failure.value != AlreadyConnected
    {
      var normalized := ToLowerCase(uuid);
      var previous := if normalized in subscribers then Some(subscribers[normalized]) else None;
      subscribers := subscribers[normalized := onData];
      if sessionId.None? {
        failure := Some(TransportClosed);
      } else {
        failure := client.Try();
      }
      if failure.Some? {
        if previous.None? {
          subscribers := subscribers - {normalized};
        } else {
          subscribers := subscribers[normalized := previous.value];
        }
      }
      trace := trace + [Op.Subscribe(uuid, failure)];
    }

    /** The session that hears a notification, by its session id and characteristic. */
    function Route(id: SessionId, uuid: string): Option<DeviceSession>
      reads this
    {
      if !listening || sessionId != Some(id) || ToLowerCase(uuid) !in subscribers then None
      else Some(subscribers[ToLowerCase(uuid)])
    }
  }

  // ---------------------------------------------------------------------
  // One session: its connection half. Session.DeviceSession is its command half.

  datatype State = NotConnected | Connected | Ready | Disconnecting

  /** One attempt: how far it got, what failed, and how the cleanup ended. */
  datatype Attempt =
    | Initialised
    | NoConnection(error: Error, cleanup: Option<Error>)
    | NoName(error: Error, cleanup: Option<Error>)
    | NoSubscription(error: Error, cleanup: Option<Error>)

  /** Its transport calls: the subscription comes last, and every failure is followed by a disconnect. */
  function Ops(a: Attempt): seq<Op> {
    match a
    case Initialised => [Connect(None), ReadName(DEVICE_NAME_UUID, None), Subscribe(NOTIFY_UUID, None)]
    case NoConnection(e, cleanup) => [Connect(Some(e)), Disconnect(cleanup)]
    case NoName(e, cleanup) => [Connect(None), ReadName(DEVICE_NAME_UUID, Some(e)), Disconnect(cleanup)]
    case NoSubscription(e, cleanup) =>
      [Connect(None), ReadName(DEVICE_NAME_UUID, None), Subscribe(NOTIFY_UUID, Some(e)), Disconnect(cleanup)]
  }

  /** The characteristics: the standard device name, and the notifications of the responses. */
  lemma InitialisationCalls()
    ensures Ops(Initialised) ==
            [Connect(None), ReadName("00002a00-0000-1000-8000-00805f9b34fb", None),
             Subscribe("0000ff01-0000-1000-8000-00805f9b34fb", None)]
  {
  }

  /** Notifications are looked up under the same name: it has no capitals. */
  lemma NotifyIsLowerCase()
    ensures ToLowerCase(NOTIFY_UUID) == "0000ff01-0000-1000-8000-00805f9b34fb"
  {
    assert forall i :: 0 <= i < |NOTIFY_UUID| ==> !('A' <= NOTIFY_UUID[i] <= 'Z');
    LowerCase(NOTIFY_UUID);
  }

  function AllOps(attempts: seq<Attempt>): seq<Op> {
    if attempts == [] then [] else AllOps(attempts[..|attempts| - 1]) + Ops(attempts[|attempts| - 1])
  }

  lemma AllOpsSnoc(attempts: seq<Attempt>, a: Attempt)
    ensures AllOps(attempts + [a]) == AllOps(attempts) + Ops(a)
  {
    assert (attempts + [a])[..|attempts|] == attempts;
  }

  lemma NoOps()
    ensures AllOps([]) == []
  {
  }

  lemma InitialisedLast(before: seq<Attempt>)
    ensures AllOps(before + [Initialised]) == AllOps(before) + TriedOps(Initialised)
  {
    AllOpsSnoc(before, Initialised);
  }

  /** What an attempt calls before its cleanup. */
  function TriedOps(a: Attempt): seq<Op> {
    var ops := Ops(a);
    if a.Initialised? then ops else ops[..|ops| - 1]
  }

  lemma AttemptCleanedUp(before: seq<Attempt>, a: Attempt, cleanup: Option<Error>)
    requires !a.Initialised?
    ensures AllOps(before + [a.(cleanup := cleanup)]) == AllOps(before) + TriedOps(a) + [Disconnect(cleanup)]
  {
    AllOpsSnoc(before, a.(cleanup := cleanup));
  }

  const CONNECT_RETRY_COUNT: nat := 3
  const DEVICE_NAME_UUID := "00002a00-0000-1000-8000-00805f9b34fb"
  const NOTIFY_UUID := "0000ff01-0000-1000-8000-00805f9b34fb"

  /** Each failed attempt before the last was worth a retry. */
  ghost predicate Retries(attempts: seq<Attempt>) {
    && 1 <= |attempts| <= CONNECT_RETRY_COUNT
    && (forall i :: 0 <= i < |attempts| - 1 ==> !attempts[i].Initialised? && IsRetryable(attempts[i].error))
  }

  class DeviceSession {
    const address: Address
    const transport: HelperTransport
    var state: State
    var name: Option<string>

    constructor (address: Address, transport: HelperTransport)
      ensures this.address == address && this.transport == transport && state == State.NotConnected && name == None
    {
      this.address := address;
      this.transport := transport;
      state := State.NotConnected;
      name := None;
    }

    /** Fully initialised: a native session, a name, and this session as the one subscriber. */
    ghost predicate IsInitialised()
      reads this, transport
    {
      && transport.Valid() && transport.sessionId.Some? && name.Some?
      && transport.subscribers == map[ToLowerCase(NOTIFY_UUID) := this]
    }

    /** The body of the `try`. */
    method TryInitialize() returns (failure: Option<Error>, ghost stage: Attempt)
      requires transport.Valid() && transport.client.Valid()
      modifies this, transport, transport.client
      ensures transport.Valid() && transport.client.Valid()
      ensures failure.None? ==> state == Ready && IsInitialised() && stage == Initialised
      ensures failure.Some? ==> !stage.Initialised? && stage.error == failure.value && stage.cleanup == None
      ensures stage.NoName? || stage.NoSubscription? ==> state == Connected
      ensures transport.trace == old(transport.trace) + TriedOps(stage)
      ensures old(transport.sessionId).Some? ==>
                failure == Some(AlreadyConnected) && transport.Held() == old(transport.Held()) &&
                transport.client.live == old(transport.client.live)
      ensures old(transport.sessionId).None? ==>
                (failure.Some? ==> failure.value.Native?) && transport.Held() !! old(transport.client.live) &&
                transport.client.live == old(transport.client.live) + transport.Held()
    {
      failure := transport.Connect(address);
      if failure.Some? {
        return failure, NoConnection(failure.value, None);
      }
      state := Connected;
      var rawName := transport.ReadCharacteristic(DEVICE_NAME_UUID);
      if rawName.Err? {
        return Some(rawName.error), NoName(rawName.error, None);
      }
      name := Some(rawName.value);
      failure := transport.Subscribe(NOTIFY_UUID, this);
      if failure.Some? {
        return failure, NoSubscription(failure.value, None);
      }
      state := Ready;
      return None, Initialised;
    }

    /**
     Returns only `Ready`, with the subscription installed last; throws only
     `NotConnected` and with nothing held, the last attempt's error. No attempt finds
     the transport connected already, unless it was so from the start: then the one
     attempt fails, and the old native session is let go.
     */
    method ConnectAndInitialize() returns (failure: Option<Error>, ghost attempts: seq<Attempt>)
      requires transport.Valid() && transport.client.Valid()
      modifies this, transport, transport.client
      ensures transport.Valid() && transport.client.Valid()
      ensures Retries(attempts) && transport.trace == old(transport.trace) + AllOps(attempts)
      ensures |attempts| <= 3
      ensures failure.None? ==> attempts[|attempts| - 1] == Initialised && state == Ready && IsInitialised()
      ensures failure.None? ==> transport.subscribers == map["0000ff01-0000-1000-8000-00805f9b34fb" := this]
      ensures failure.Some? ==>
                && !attempts[|attempts| - 1].Initialised? && attempts[|attempts| - 1].error == failure.value
                && (|attempts| == 3 || !IsRetryable(failure.value))
                && state == State.NotConnected && name == None && transport.sessionId == None
      ensures old(transport.sessionId).Some? ==>
                failure == Some(AlreadyConnected) && |attempts| == 1 &&
                transport.client.live == old(transport.client.live) - old(transport.Held())
      ensures old(transport.sessionId).None? ==>
                (forall i :: 0 <= i < |attempts| ==> attempts[i].Initialised? || attempts[i].error.Native?) &&
                transport.Held() !! old(transport.client.live) &&
                transport.client.live == old(transport.client.live) + transport.Held()
    {
      hide Ops, AllOps, TriedOps, IsRetryable;
      NoOps();
      NotifyIsLowerCase();
      AlreadyConnectedStops();
      attempts := [];
      var attempt := 0;
      while attempt < CONNECT_RETRY_COUNT
        invariant attempt < CONNECT_RETRY_COUNT && |attempts| == attempt
        invariant transport.Valid() && transport.client.Valid() && transport.client.live == old(transport.client.live)
        invariant transport.sessionId == old(transport.sessionId) && (attempt > 0 ==> transport.sessionId.None?)
        invariant forall i :: 0 <= i < |attempts| ==>
                    !attempts[i].Initialised? && attempts[i].error.Native? && IsRetryable(attempts[i].error)
        invariant transport.trace == old(transport.trace) + AllOps(attempts)
      {
        ghost var stage;
        failure, stage := TryInitialize();
        if failure.None? {
          InitialisedLast(attempts);
          return failure, attempts + [Initialised];
        }
        state := State.NotConnected;
        name := None;
        ghost var held := transport.Held();
        var cleanup := transport.Disconnect();
        assert old(transport.sessionId).None? ==>
            transport.client.live == old(transport.client.live) + held - held == old(transport.client.live);
        AttemptCleanedUp(attempts, stage, cleanup);
        attempts := attempts + [stage.(cleanup := cleanup)];
        if attempt >= CONNECT_RETRY_COUNT - 1 || !IsRetryable(failure.value) {
          return failure, attempts;
        }
        attempt := attempt + 1;
      }
      assert false;
    }

    /** The session is reset even when the native cleanup fails. */
    method Disconnect() returns (failure: Option<Error>)
      requires transport.Valid() && transport.client.Valid()
      modifies this, transport, transport.client
      ensures transport.Valid() && transport.client.Valid()
      ensures state == State.NotConnected && name == None && transport.sessionId == None
      ensures transport.client.live == old(transport.client.live) - old(transport.Held())
      ensures transport.trace == old(transport.trace) + [Op.Disconnect(failure)]
      ensures old(transport.sessionId).Some? ==>
                transport.client.released ==
                  old(transport.client.released) + [Release(old(transport.sessionId).value, failure)]
    {
      state := Disconnecting;
      failure := transport.Disconnect();
      name := None;
      state := State.NotConnected;
    }
  }

  // ---------------------------------------------------------------------
  // The manager.

  /** The errors among some native disconnects, in order. */
  function Failures(released: seq<Release>): seq<Error> {
    if released == [] then []
    else
      var before, last := Failures(released[..|released| - 1]), released[|released| - 1];
      if last.failure.Some? then before + [last.failure.value] else before
  }

  function Ids(released: seq<Release>): set<SessionId> {
    set r | r in released :: r.id
  }

  lemma NoReleases()
    ensures Failures([]) == [] && Ids([]) == {}
  {
  }

  lemma ReleaseSnoc(released: seq<Release>, r: Release)
    ensures Failures(released + [r]) == Failures(released) + if r.failure.Some? then [r.failure.value] else []
    ensures Ids(released + [r]) == Ids(released) + {r.id}
    ensures r.id !in Ids(released) ==> |Ids(released + [r])| == |Ids(released)| + 1
  {
    assert (released + [r])[..|released|] == released;
    assert Ids(released + [r]) == Ids(released) + {r.id};
  }

  function Set(addresses: seq<Address>): set<Address> {
    set a | a in addresses
  }

  lemma SetOfNone()
    ensures Set([]) == {}
  {
  }

  lemma SetSnoc(addresses: seq<Address>, i: nat)
    requires i < |addresses|
    ensures Set(addresses[..i + 1]) == Set(addresses[..i]) + {addresses[i]}
  {
    assert addresses[..i + 1] == addresses[..i] + [addresses[i]];
  }

  class MultiDeviceManager {
    const addresses: seq<Address>
    const client: NativeHelper
    var sessions: map<Address, DeviceSession>
    ghost var known: map<HelperTransport, DeviceSession>    // every transport ever created, with its session
    ghost var owner: map<SessionId, DeviceSession>          // who holds each native session

    constructor (addresses: seq<Address>, client: NativeHelper)
      requires client.Valid() && client.live == {}
      ensures this.addresses == addresses && this.client == client
      ensures Valid() && sessions == map[] && known == map[]
    {
      this.addresses := addresses;
      this.client := client;
      sessions := map[];
      known := map[];
      owner := map[];
    }

    ghost predicate IsInstalled(s: DeviceSession)
      reads this
    {
      s.address in sessions && sessions[s.address] == s
    }

    /** Every installed session is fully initialised, and filed under its address. */
    ghost predicate Complete()
      reads this, sessions.Values, known.Keys
    {
      forall a :: a in sessions ==>
        var s := sessions[a];
        s.address == a && s.transport in known && known[s.transport] == s && s.IsInitialised()
    }

    /** Each transport belongs to one session. */
    ghost predicate Wired()
      reads this, known.Keys
    {
      forall t :: t in known ==> known[t].transport == t && t.client == client && t.Valid()
    }

    /** The helper's live sessions and the transports that hold one match one to one, and those are installed. */
    ghost predicate Owned()
      reads this, client, known.Keys
    {
      && client.live == owner.Keys
      && (forall id :: id in owner ==>
            owner[id].transport in known && known[owner[id].transport] == owner[id] &&
            owner[id].transport.sessionId == Some(id))
      && (forall t :: t in known && t.sessionId.Some? ==>
            t.sessionId.value in owner && owner[t.sessionId.value] == known[t] && IsInstalled(known[t]))
    }

    ghost predicate Valid()
      reads this, client, sessions.Values, known.Keys
    {
      client.Valid() && Complete() && Wired() && Owned()
    }

    /**
     A notification of a live native session is heard by the installed session
     that owns it and by no other; one of a released session by nobody.
     */
    lemma OnlyTheOwnerHears(id: SessionId, t: HelperTransport)
      requires Valid() && t in known
      ensures t.Route(id, NOTIFY_UUID) ==
              if id in client.live && owner[id].transport == t then Some(owner[id]) else None
      ensures id in client.live ==> IsInstalled(owner[id]) && owner[id].transport in known
    {
      if id in client.live {
        assert owner[id].IsInitialised();
      }
    }

    /** The native session an address holds. */
    ghost function Holder(address: Address): SessionId
      requires Valid() && address in sessions
      reads this, client, sessions.Values, known.Keys
    {
      InstalledHolds(address);
      sessions[address].transport.sessionId.value
    }

    lemma InstalledHolds(address: Address)
      requires Valid() && address in sessions
      ensures var s := sessions[address];
              && s.address == address && s.transport in known && known[s.transport] == s && s.transport.client == client
              && s.transport.Valid() && s.transport.sessionId.Some? && s.transport.sessionId.value in client.live
      ensures forall a :: a in sessions && a != address ==>
                sessions[a] != sessions[address] && sessions[a].transport != sessions[address].transport
    {
    }

    lemma NothingLeft()
      requires Valid() && sessions == map[]
      ensures client.live == {}
    {
      assert forall id :: id in client.live ==> id in owner;
    }

    // How a new transport and session join, and how a session leaves.

    twostate lemma JoinStaysWired(new transport: HelperTransport, new session: DeviceSession)
      requires old(Wired()) && known == old(known)[transport := session]
      requires session.transport == transport && transport.client == client && transport.Valid()
      requires forall t :: t in old(known) ==> unchanged(t)
      ensures Wired()
    {
    }

    twostate lemma JoinStaysComplete(new transport: HelperTransport, new session: DeviceSession)
      requires old(Complete()) && known == old(known)[transport := session] && transport !in old(known)
      requires forall a :: a in old(sessions) ==> unchanged(old(sessions)[a]) && unchanged(old(sessions)[a].transport)
      requires || sessions == old(sessions)
               || (sessions == old(sessions)[session.address := session] && session.transport == transport &&
                   session.IsInitialised())
      ensures Complete()
    {
    }

    twostate lemma JoinStaysOwned(new transport: HelperTransport, new session: DeviceSession)
      requires old(Owned()) && known == old(known)[transport := session] && transport !in old(known)
      requires session.transport == transport && session.address !in old(sessions)
      requires forall t :: t in old(known) ==> t.sessionId == old(t.sessionId)
      requires
        if transport.sessionId.None? then
          owner == old(owner) && client.live == old(client.live) && sessions == old(sessions)
        else
          var id := transport.sessionId.value;
          id !in old(client.live) && client.live == old(client.live) + {id} &&
          owner == old(owner)[id := session] && sessions == old(sessions)[session.address := session]
      ensures Owned()
    {
    }

    twostate lemma LeaveStaysWired(session: DeviceSession)
      requires old(Wired()) && known == old(known) && session.transport.Valid()
      requires forall t :: t in known && t != session.transport ==> unchanged(t)
      ensures Wired()
    {
    }

    twostate lemma LeaveStaysComplete(session: DeviceSession)
      requires old(Wired()) && old(Complete()) && known == old(known)
      requires session.address in old(sessions) && old(sessions)[session.address] == session
      requires sessions == old(sessions) - {session.address}
      requires forall a :: a in sessions ==> unchanged(sessions[a])
      requires forall t :: t in known && t != session.transport ==> unchanged(t)
      ensures Complete()
    {
      forall a | a in sessions
        ensures sessions[a] != session && sessions[a].transport != session.transport
      {
      }
    }

    twostate lemma LeaveStaysOwned(session: DeviceSession)
      requires old(Wired()) && old(Owned()) && known == old(known)
      requires session.transport in known && known[session.transport] == session &&
               old(session.transport.sessionId.Some?)
      requires session.transport.sessionId.None?
      requires client.live == old(client.live) - old(session.transport.Held()) &&
               owner == old(owner) - old(session.transport.Held())
      requires sessions == old(sessions) - {session.address}
      requires forall t :: t in known && t != session.transport ==> t.sessionId == old(t.sessionId)
      ensures Owned()
    {
      forall t | t in known && t.sessionId.Some?
        ensures known[t] != session && t.sessionId != old(session.transport.sessionId)
      {
      }
    }

    /** A new session for an address that has none: installed once initialised, or not at all. */
    method Install(address: Address) returns (failure: Option<Error>)
      requires Valid() && address !in sessions
      modifies this, client
      ensures Valid() && old(known.Keys) <= known.Keys && fresh(known.Keys - old(known.Keys))
      ensures failure.Some? ==> sessions == old(sessions)
      ensures failure.None? ==>
                address in sessions && sessions == old(sessions)[address := sessions[address]] &&
                fresh(sessions[address]) && fresh(sessions[address].transport) && sessions[address].state == Ready
    {
      hide Complete, Wired, Owned, Retries, AllOps, IsRetryable;
      var transport := new HelperTransport(client);
      assert transport !in known;
      var session := new DeviceSession(address, transport);
      ghost var attempts;
      failure, attempts := session.ConnectAndInitialize();
      known := known[transport := session];
      if failure.None? {
        owner := owner[transport.sessionId.value := session];
        sessions := sessions[address := session];
      }
      assert transport.Held() == {} || transport.sessionId.value in transport.Held();
      JoinStaysWired(transport, session);
      JoinStaysComplete(transport, session);
      JoinStaysOwned(transport, session);
    }

    /** Disconnects and removes one session, whatever its cleanup says. */
    method Remove(address: Address) returns (failure: Option<Error>)
      requires Valid() && address in sessions
      modifies this, client, sessions[address], sessions[address].transport
      ensures Valid() && known == old(known)
      ensures sessions == old(sessions) - {address} && old(sessions)[address].transport.sessionId == None
      ensures var id := old(Holder(address));
              client.released == old(client.released) + [Release(id, failure)] &&
              client.live == old(client.live) - {id} && id in old(client.live)
    {
      hide Complete, Owned, Wired, DeviceSession.IsInitialised;
      InstalledHolds(address);
      var session := sessions[address];
      owner := owner - session.transport.Held();
      failure := session.Disconnect();
      sessions := sessions - {address};
      LeaveStaysWired(session);
      LeaveStaysComplete(session);
      LeaveStaysOwned(session);
    }

    /** The addresses are connected in order, skipping those connected; the first failure ends it. */
    method ConnectAll() returns (failure: Option<Error>, ghost count: nat)
      requires Valid()
      modifies this, client
      ensures Valid()
      ensures count <= |addresses| && (failure.None? <==> count == |addresses|)
      ensures failure.Some? ==> addresses[count] !in sessions
      ensures sessions.Keys == old(sessions.Keys) + Set(addresses[..count])
      ensures forall a :: a in sessions ==>
                if a in old(sessions) then sessions[a] == old(sessions)[a]
                else fresh(sessions[a]) && fresh(sessions[a].transport)
    {
      hide Complete, Wired, Owned, Set;
      count := 0;
      failure := None;
      SetOfNone();
      for i := 0 to |addresses|
        invariant Valid() && count == i && failure == None
        invariant sessions.Keys == old(sessions.Keys) + Set(addresses[..i])
        invariant forall a :: a in sessions ==>
                    if a in old(sessions) then sessions[a] == old(sessions)[a]
                    else fresh(sessions[a]) && fresh(sessions[a].transport)
      {
        SetSnoc(addresses, i);
        if addresses[i] in sessions {
          count := i + 1;
          continue;
        }
        failure := Install(addresses[i]);
        if failure.Some? {
          return;
        }
        count := i + 1;
      }
      assert addresses[..|addresses|] == addresses;
    }

    /** The old session is gone before its replacement is tried; a failure leaves none. */
    method Reconnect(address: Address) returns (failure: Option<Error>)
      requires Valid()
      modifies this, client
      modifies if address in sessions then {sessions[address]} else {}
      modifies if address in sessions then {sessions[address].transport} else {}
      ensures Valid()
      ensures failure.Some? ==> sessions == old(sessions) - {address}
      ensures failure.None? ==>
                address in sessions && sessions == old(sessions)[address := sessions[address]] &&
                fresh(sessions[address]) && sessions[address].state == Ready
    {
      hide Complete, Wired, Owned;
      if address in sessions {
        var _ := Remove(address);
      }
      failure := Install(address);
    }

    /** One round of `disconnectAll`. */
    method RemoveNext() returns (failure: Option<Error>, ghost id: SessionId)
      requires Valid() && sessions != map[]
      modifies this, client, sessions.Values, known.Keys
      ensures Valid() && known == old(known)
      ensures |sessions| < |old(sessions)| && sessions.Values <= old(sessions.Values)
      ensures client.released == old(client.released) + [Release(id, failure)]
      ensures client.live == old(client.live) - {id} && id in old(client.live)
    {
      hide Complete, Wired, Owned, Holder, NativeHelper.Valid, HelperTransport.Valid;
      var address :| address in sessions;
      id := Holder(address);
      InstalledHolds(address);
      failure := Remove(address);
    }

    /**
     Empties the map and disconnects every native session, once each, whatever
     fails; what it throws is exactly the errors of those disconnects.
     */
    method DisconnectAll() returns (failures: seq<Error>, ghost released: seq<Release>)
      requires Valid()
      modifies this, client, sessions.Values, known.Keys
      ensures Valid() && sessions == map[] && client.live == {}
      ensures client.released == old(client.released) + released && failures == Failures(released)
      ensures Ids(released) == old(client.live) && |released| == |old(client.live)|
    {
      hide Complete, Wired, Owned, Ids, Failures, NativeHelper.Valid;
      NoReleases();
      failures, released := [], [];
      while sessions != map[]
        invariant Valid() && known == old(known) && sessions.Values <= old(sessions.Values)
        invariant client.released == old(client.released) + released && failures == Failures(released)
        invariant client.live == old(client.live) - Ids(released) && Ids(released) <= old(client.live)
        invariant |released| == |Ids(released)|
        decreases |sessions|
      {
        var failure;
        ghost var id;
        failure, id := RemoveNext();
        ReleaseSnoc(released, Release(id, failure));
        released := released + [Release(id, failure)];
        if failure.Some? {
          failures := failures + [failure.value];
        }
      }
      NothingLeft();
    }
  }
}
