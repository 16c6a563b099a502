/** Choosing the MIDI output: the device list, in the order portmidi
    enumerates it, is searched for the first device that can output and
    whose name equals the requested name exactly. The device list is an
    input and a device is known by its position (its portmidi device id).
    Whether portmidi can open the found device is the parameter `opens`. */
module Devices {
  import opened OscTypes

  /** What portmidi reports of one device. */
  datatype DeviceInfo = DeviceInfo(name: string, isInput: bool, isOutput: bool)

  /** `GetOutputStream`'s two errors: opening the chosen device failed, or
      no output device has the name. */
  datatype OpenError = OpenFailed(id: nat) | NoOutputNamed(name: string)

  /** The device qualifies: it can output and its name is exactly `name`. */
  predicate Qualifies(d: DeviceInfo, name: string) {
    d.isOutput && d.name == name
  }

  /** The position of the first qualifying device, if any. */
  function FirstQualifying(devices: seq<DeviceInfo>, name: string): (r: Option<nat>)
    ensures r.Some? ==> r.value < |devices| && Qualifies(devices[r.value], name)
    ensures r.Some? ==> forall j :: 0 <= j < r.value ==> !Qualifies(devices[j], name)
    ensures r.None? ==> forall j :: 0 <= j < |devices| ==> !Qualifies(devices[j], name)
  {
    if devices == [] then None
    else if Qualifies(devices[0], name) then Some(0)
    else match FirstQualifying(devices[1..], name)
      case None => None
      case Some(i) => Some(i + 1)
  }

  /** What `GetOutputStream` returns, stated without its loop: the
      reference the method is proved against. */
  function SelectOutput(devices: seq<DeviceInfo>, name: string, opens: nat -> bool): Result<nat, OpenError> {
    match FirstQualifying(devices, name)
    case None => Err(NoOutputNamed(name))
    case Some(id) => if opens(id) then Ok(id) else Err(OpenFailed(id))
  }

  /** `GetOutputStream`: scan the devices in order and open the first one
      that qualifies; the search stops there even if opening it fails. */
  method GetOutputStream(devices: seq<DeviceInfo>, name: string, opens: nat -> bool)
    returns (r: Result<nat, OpenError>)
    ensures r == SelectOutput(devices, name, opens)
  {
    var n := 0;
    while n < |devices|
      invariant 0 <= n <= |devices|
      invariant forall j :: 0 <= j < n ==> !Qualifies(devices[j], name)
    {
      var dev := devices[n];
      if dev.isOutput && dev.name == name {
        if !opens(n) {
          return Err(OpenFailed(n));
        }
        return Ok(n);
      }
      n := n + 1;
    }
    return Err(NoOutputNamed(name));
  }

  /** The chosen device qualifies, and no device before it does: input-only
      devices and devices whose name differs in any way are passed over. */
  lemma SelectedIsFirstQualifying(devices: seq<DeviceInfo>, name: string, opens: nat -> bool)
    requires SelectOutput(devices, name, opens).Ok?
    ensures var id := SelectOutput(devices, name, opens).value;
      id < |devices| && devices[id].isOutput && devices[id].name == name &&
      forall j :: 0 <= j < id ==> !devices[j].isOutput || devices[j].name != name
  {
  }

  /** "No MIDI output named ..." is reported exactly when no device
      qualifies. */
  lemma NotFoundIff(devices: seq<DeviceInfo>, name: string, opens: nat -> bool)
    ensures SelectOutput(devices, name, opens) == Err(NoOutputNamed(name)) <==>
      forall j :: 0 <= j < |devices| ==> !Qualifies(devices[j], name)
  {
  }

  /** With several devices of the same name, the earliest output wins. */
  lemma EarliestDuplicateWins(devices: seq<DeviceInfo>, name: string, opens: nat -> bool, i: nat, j: nat)
    requires i < j < |devices|
    requires Qualifies(devices[i], name) && Qualifies(devices[j], name)
    ensures SelectOutput(devices, name, opens) != Ok(j)
    ensures SelectOutput(devices, name, opens).Ok? ==> SelectOutput(devices, name, opens).value <= i
    ensures SelectOutput(devices, name, opens).Err? ==>
      SelectOutput(devices, name, opens).error.OpenFailed? && SelectOutput(devices, name, opens).error.id <= i
  {
  }
}
