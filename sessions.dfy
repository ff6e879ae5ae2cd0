/** Device-token sessions: the device list, issuing a token and validating
    one. Only the hash of a token is ever stored; the hash function and the
    random secret are parameters. */
module Sessions {
  import opened Wrappers

  /** A device token is valid for 90 days after it is issued (seconds). */
  const DeviceLifetime: int := 90 * 24 * 60 * 60

  /** One signed-in device. Times are integer seconds; an `expiresAt` of
      `None` (absent or empty in the stored record) never expires. */
  datatype Device = Device(
    tokenHash: string,
    email: string,
    deviceName: string,
    createdAt: int,
    expiresAt: Option<int>,
    lastUsed: int)

  /** `expires_at and fromisoformat(expires_at) < now`. */
  predicate Expired(d: Device, now: int) {
    d.expiresAt.Some? && d.expiresAt.value < now
  }

  /** The position of the first device whose stored hash is `h`. */
  function IndexOfHash(devices: seq<Device>, h: string): (r: Option<nat>)
    ensures r.Some? ==> r.value < |devices| && devices[r.value].tokenHash == h
    ensures r.Some? ==> forall j :: 0 <= j < r.value ==> devices[j].tokenHash != h
    ensures r.None? ==> forall j :: 0 <= j < |devices| ==> devices[j].tokenHash != h
  {
    if |devices| == 0 then None
    else if devices[0].tokenHash == h then Some(0)
    else
      match IndexOfHash(devices[1..], h)
      case None => None
      case Some(i) => Some(i + 1)
  }

  /** What validating a token yields: the device (if any) and the device
      list as it is afterwards. */
  datatype Validated = Validated(device: Option<Device>, devices: seq<Device>)

  /** The specification of `validate_device_token`: an empty token, a hash
      that no device has, or an expired first match are rejected and
      nothing is written; otherwise the first match gets `lastUsed := now`
      and is returned. */
  function Validation(devices: seq<Device>, hash: string -> string, token: string, now: int): (r: Validated)
    ensures |r.devices| == |devices|
    ensures r.device.None? ==> r.devices == devices
    ensures r.device.Some? ==> token != "" && r.device.value.tokenHash == hash(token)
                               && r.device.value.lastUsed == now && r.device.value in r.devices
  {
    if token == "" then Validated(None, devices)
    else
      match IndexOfHash(devices, hash(token))
      case None => Validated(None, devices)
      case Some(i) =>
        if Expired(devices[i], now) then Validated(None, devices)
        else
          var used := devices[i].(lastUsed := now);
          assert devices[i := used][i] == used;
          Validated(Some(used), devices[i := used])
  }

  /** The loop of `validate_device_token`, run over a device list: walk the
      devices in order and stop at the first whose hash matches. */
  method ValidateDevice(devices: seq<Device>, hash: string -> string, token: string, now: int)
    returns (found: Option<Device>, updated: seq<Device>)
    ensures Validated(found, updated) == Validation(devices, hash, token, now)
  {
    if token == "" {
      return None, devices;
    }
    var h := hash(token);
    var i := 0;
    while i < |devices|
      invariant 0 <= i <= |devices|
      invariant forall j :: 0 <= j < i ==> devices[j].tokenHash != h
    {
      var d := devices[i];
      if d.tokenHash == h {
        if Expired(d, now) {
          return None, devices;
        }
        var used := d.(lastUsed := now);
        return Some(used), devices[i := used];
      }
      i := i + 1;
    }
    return None, devices;
  }

  /** The record `create_device` appends for a fresh secret `token`. */
  function NewDevice(hash: string -> string, token: string, email: string, deviceName: string, now: int): (d: Device)
    ensures d.tokenHash == hash(token) && d.email == email && d.deviceName == deviceName
    ensures d.expiresAt == Some(now + DeviceLifetime) && !Expired(d, now)
  {
    Device(hash(token), email, deviceName, now, Some(now + DeviceLifetime), now)
  }

  /** Validation when device `i` is the first one with the token's hash:
      it succeeds exactly when the token is non-empty and device `i` has not
      expired, and then only device `i` changes. */
  lemma ValidationFirstMatch(devices: seq<Device>, hash: string -> string, token: string, now: int, i: nat)
    requires i < |devices| && devices[i].tokenHash == hash(token)
    requires forall j :: 0 <= j < i ==> devices[j].tokenHash != hash(token)
    ensures var r := Validation(devices, hash, token, now);
            && (r.device.Some? <==> token != "" && !Expired(devices[i], now))
            && (r.device.Some? ==> r.device == Some(devices[i].(lastUsed := now))
                                   && r.devices == devices[i := devices[i].(lastUsed := now)])
  {
    assert IndexOfHash(devices, hash(token)) == Some(i);
  }

  /** A token whose hash no device has is rejected and nothing changes. */
  lemma ValidationUnknown(devices: seq<Device>, hash: string -> string, token: string, now: int)
    requires forall j :: 0 <= j < |devices| ==> devices[j].tokenHash != hash(token)
    ensures Validation(devices, hash, token, now) == Validated(None, devices)
  {
  }

  /** Validating again at the same time changes nothing more and gives the
      same verdict: a successful validation touches only `lastUsed`. */
  lemma ValidationIdempotent(devices: seq<Device>, hash: string -> string, token: string, now: int)
    ensures var r := Validation(devices, hash, token, now);
            Validation(r.devices, hash, token, now) == r
  {
    var r := Validation(devices, hash, token, now);
    if token != "" {
      match IndexOfHash(devices, hash(token))
      case None =>
      case Some(i) =>
        ValidationFirstMatch(devices, hash, token, now, i);
        if r.device.Some? {
          ValidationFirstMatch(r.devices, hash, token, now, i);
          assert r.devices[i := r.devices[i].(lastUsed := now)] == r.devices;
        }
    }
  }

  /** A token just issued by `create_device` validates at any time up to its
      expiry, provided no earlier device carries the same hash; afterwards
      it is rejected. */
  lemma CreateThenValidate(devices: seq<Device>, hash: string -> string, token: string,
                           email: string, deviceName: string, created: int, now: int)
    requires token != ""
    requires forall j :: 0 <= j < |devices| ==> devices[j].tokenHash != hash(token)
    ensures var d := NewDevice(hash, token, email, deviceName, created);
            var r := Validation(devices + [d], hash, token, now);
            && (now <= created + DeviceLifetime ==> r.device == Some(d.(lastUsed := now)))
            && (now > created + DeviceLifetime ==> r.device.None?)
  {
    var d := NewDevice(hash, token, email, deviceName, created);
    ValidationFirstMatch(devices + [d], hash, token, now, |devices|);
  }
}
