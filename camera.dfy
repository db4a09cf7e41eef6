/** Camera choice of the detecting pages (app1.js and app3.js): among the
    devices the browser lists, take the first video input whose label contains
    "USB", else start the default rear camera; then build the `getUserMedia`
    constraints. Enumerating devices and opening the stream are left to the
    browser: the device list is an input. */
module Camera {
  import opened Js

  /** The fields of a `MediaDeviceInfo` the page reads (`deviceLabel` is its
      `label`). */
  datatype MediaDevice = MediaDevice(kind: string, deviceLabel: string, deviceId: string)

  predicate IsVideoInput(d: MediaDevice) {
    d.kind == "videoinput"
  }

  predicate IsUsb(d: MediaDevice) {
    Includes(d.deviceLabel, "USB")
  }

  /** `devices.filter(device => device.kind === 'videoinput')`. */
  function VideoInputs(devices: seq<MediaDevice>): (r: seq<MediaDevice>)
    ensures forall d :: d in r <==> d in devices && IsVideoInput(d)
  {
    if |devices| == 0 then []
    else (if IsVideoInput(devices[0]) then [devices[0]] else []) + VideoInputs(devices[1..])
  }

  /** `videoDevices.find(device => device.label.includes('USB'))`. */
  function FindUsb(devices: seq<MediaDevice>): (r: Option<MediaDevice>)
    ensures r.Some? ==> r.value in devices && IsUsb(r.value)
    ensures r.None? <==> forall d :: d in devices ==> !IsUsb(d)
  {
    if |devices| == 0 then None
    else if IsUsb(devices[0]) then Some(devices[0])
    else FindUsb(devices[1..])
  }

  /** The argument of `startCamera`: the USB camera's `deviceId`, or none
      (the default `null`). */
  function ChooseCamera(devices: seq<MediaDevice>): (r: Option<string>)
    // The default camera is used exactly when no video input is a USB camera.
    ensures r.None? <==> forall d :: d in devices && IsVideoInput(d) ==> !IsUsb(d)
  {
    match FindUsb(VideoInputs(devices))
    case Some(d) => Some(d.deviceId)
    case None => None
  }

  /** The chosen device is the first video input whose label contains "USB",
      whatever follows it in the list. */
  lemma {:induction false} ChooseCameraTakesFirst(devices: seq<MediaDevice>, i: nat)
    requires i < |devices| && IsVideoInput(devices[i]) && IsUsb(devices[i])
    requires forall j :: 0 <= j < i ==> !(IsVideoInput(devices[j]) && IsUsb(devices[j]))
    ensures ChooseCamera(devices) == Some(devices[i].deviceId)
  {
    FirstUsbVideoInput(devices, i);
  }

  lemma {:induction false} FirstUsbVideoInput(devices: seq<MediaDevice>, i: nat)
    requires i < |devices| && IsVideoInput(devices[i]) && IsUsb(devices[i])
    requires forall j :: 0 <= j < i ==> !(IsVideoInput(devices[j]) && IsUsb(devices[j]))
    ensures FindUsb(VideoInputs(devices)) == Some(devices[i])
  {
    var rest := devices[1..];
    if i == 0 {
      assert VideoInputs(devices) == [devices[0]] + VideoInputs(rest);
    } else {
      FirstUsbVideoInput(rest, i - 1);
      if IsVideoInput(devices[0]) {
        assert !IsUsb(devices[0]);
        assert VideoInputs(devices) == [devices[0]] + VideoInputs(rest);
        assert VideoInputs(devices)[1..] == VideoInputs(rest);
      } else {
        assert VideoInputs(devices) == VideoInputs(rest);
      }
    }
  }

  /** The exact-match constraints passed to `getUserMedia` and to Quagga. */
  datatype Constraints = Constraints(facingMode: string, deviceId: Option<string>)

  /** The constraints `startCamera(deviceId)` builds: always the rear camera
      (`facingMode: { exact: "environment" }`), plus `deviceId: { exact }` when
      a truthy id is passed. */
  function CameraConstraints(deviceId: Option<string>): (c: Constraints)
    ensures c.facingMode == "environment"
    ensures c.deviceId.Some? <==> Truthy(deviceId)
    ensures c.deviceId.Some? ==> c.deviceId == deviceId
  {
    Constraints("environment", if Truthy(deviceId) then deviceId else None)
  }

  /** The constraints the page starts with after enumerating `devices`. */
  function StartupConstraints(devices: seq<MediaDevice>): (c: Constraints)
    ensures c.facingMode == "environment"
    // Without a USB video input, no device is pinned.
    ensures (forall d :: d in devices && IsVideoInput(d) ==> !IsUsb(d)) ==> c.deviceId.None?
    ensures c.deviceId.Some? ==> exists d :: d in devices && IsVideoInput(d) && IsUsb(d) && c.deviceId == Some(d.deviceId)
  {
    var id := ChooseCamera(devices);
    assert id.Some? ==> FindUsb(VideoInputs(devices)).Some? && id == Some(FindUsb(VideoInputs(devices)).value.deviceId);
    CameraConstraints(id)
  }

  /** The constraints pin the first USB video input whenever its id is
      truthy, whatever devices follow it. */
  lemma StartupPinsFirstUsb(devices: seq<MediaDevice>, i: nat)
    requires i < |devices| && IsVideoInput(devices[i]) && IsUsb(devices[i])
    requires forall j :: 0 <= j < i ==> !(IsVideoInput(devices[j]) && IsUsb(devices[j]))
    ensures StartupConstraints(devices).deviceId == (if devices[i].deviceId != "" then Some(devices[i].deviceId) else None)
  {
    ChooseCameraTakesFirst(devices, i);
  }
}
