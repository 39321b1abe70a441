/** Resolving a print device by name: print(filePath, deviceName) walks the
    enumerated services and keeps the first whose name equals the requested
    one exactly (String.equals, case-sensitive). */
module Devices {
  import opened Wrappers

  /** A print service, known to PrintUtil only by its name. */
  datatype Device = Device(name: string)

  /** The position of the first device called `name`, None when there is none. */
  function FirstNamed(devices: seq<Device>, name: string): (r: Option<nat>)
    ensures r.Some? ==> r.value < |devices| && devices[r.value].name == name
    ensures r.Some? ==> forall j :: 0 <= j < r.value ==> devices[j].name != name
    ensures r.None? <==> forall j :: 0 <= j < |devices| ==> devices[j].name != name
  {
    if devices == [] then None
    else if devices[0].name == name then Some(0)
    else
      match FirstNamed(devices[1..], name)
      case None => None
      case Some(k) => Some(k + 1)
  }

  /** The lookup loop: stop at the first device whose name matches. */
  method FindDevice(devices: seq<Device>, name: string) returns (r: Option<nat>)
    ensures r == FirstNamed(devices, name)
  {
    r := None;
    var i := 0;
    while i < |devices|
      invariant i <= |devices|
      invariant forall j :: 0 <= j < i ==> devices[j].name != name
    {
      if devices[i].name == name {
        r := Some(i);
        break;
      }
      i := i + 1;
    }
  }
}
