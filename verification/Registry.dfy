/** Live device connections (server/registry.py). */
module Registry {
  import opened Wrappers
  import opened Tables

  const OFFLINE_AFTER_SECONDS := 30.0

  datatype Message = JobDispatch(jobId: string, script: Script, timeoutSeconds: int, maxOutputBytes: nat)

  class DeviceConnection {
    const device: string
    var outbound: seq<Message>
    var lastSeen: real
    var revoked: bool
    var closed: bool

    constructor (device: string, monotonicNow: real)
      ensures this.device == device && outbound == [] && lastSeen == monotonicNow && !revoked && !closed
    {
      this.device, outbound, lastSeen, revoked, closed := device, [], monotonicNow, false, false;
    }

    method Touch(monotonicNow: real)
      modifies this`lastSeen
      ensures lastSeen == monotonicNow
    {
      lastSeen := monotonicNow;
    }

    predicate IsReachable(monotonicNow: real)
      reads this
    {
      !revoked && monotonicNow - lastSeen < OFFLINE_AFTER_SECONDS
    }

    /** Discards work queued but not yet delivered. */
    method DrainPending() returns (dropped: nat)
      modifies this`outbound
      ensures outbound == [] && dropped == |old(outbound)|
    {
      dropped := 0;
      while outbound != []
        invariant dropped + |outbound| == |old(outbound)|
        decreases |outbound|
      {
        outbound := outbound[1..];
        dropped := dropped + 1;
      }
    }

    method Close()
      modifies this`revoked, this`closed
      ensures revoked && closed
    {
      revoked, closed := true, true;
    }
  }

  class DeviceRegistry {
    var devices: map<string, DeviceConnection>

    ghost predicate Valid()
      reads this
    {
      forall d | d in devices :: devices[d].device == d
    }

    constructor ()
      ensures Valid() && devices == map[]
    {
      devices := map[];
    }

    /** A newer connection replaces the one before it. */
    method Register(connection: DeviceConnection)
      requires Valid()
      modifies this
      ensures Valid() && devices == old(devices)[connection.device := connection]
    {
      devices := devices[connection.device := connection];
    }

    /** A connection that was replaced does not remove its replacement. */
    method Remove(device: string, expected: DeviceConnection)
      requires Valid()
      modifies this
      ensures Valid()
      ensures devices == if device in old(devices) && old(devices)[device] == expected then old(devices) - {device}
                         else old(devices)
    {
      if device in devices && devices[device] == expected { devices := devices - {device}; }
    }

    function Get(device: string): Option<DeviceConnection>
      reads this
    {
      if device in devices then Some(devices[device]) else None
    }

    /** The device's connection, if it has one. */
    ghost function Connections(device: string): set<DeviceConnection>
      reads this
    {
      if device in devices then {devices[device]} else {}
    }

    /** Who is connected, and when each was last heard from. */
    ghost function Snapshot(): map<string, Liveness>
      reads this, devices.Values
    {
      map d | d in devices :: Liveness(devices[d].revoked, devices[d].lastSeen)
    }

    predicate Reachable(device: string, monotonicNow: real)
      reads this, devices.Values
      ensures Reachable(device, monotonicNow) <==>
                device in devices && !devices[device].revoked && monotonicNow - devices[device].lastSeen < 30.0
      ensures Reachable(device, monotonicNow) == Live(Snapshot(), device, monotonicNow)
    {
      device in devices && devices[device].IsReachable(monotonicNow)
    }
  }

  datatype Liveness = Liveness(revoked: bool, lastSeen: real)

  predicate Live(connections: map<string, Liveness>, device: string, monotonicNow: real) {
    && device in connections && !connections[device].revoked
    && monotonicNow - connections[device].lastSeen < OFFLINE_AFTER_SECONDS
  }
}
