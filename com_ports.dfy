/** Finding the display among the serial ports (src/com_ports.py). The system's port list is a parameter:
    it is what `list_com_ports` would return. */
module ComPorts {
  import opened Wrappers

  /** A port as pyserial describes it; `vid` and `pid` are absent for ports that are not USB devices. */
  datatype PortInfo = PortInfo(device: string, description: string, hwid: string, vid: Option<int>, pid: Option<int>)

  /** The USB vendor/product pairs of the display's serial bridge: CH340 and CH341. */
  const DisplayVidPids: seq<(int, int)> := [(0x1A86, 0x7523), (0x1A86, 0x5523)]

  /** A port whose vendor and product ids are both known and name one of the display's bridges. */
  predicate IsDisplay(p: PortInfo)
  {
    p.vid.Some? && p.pid.Some? && (p.vid.value, p.pid.value) in DisplayVidPids
  }

  /** Some port in the list is the display. */
  predicate AnyDisplay(ports: seq<PortInfo>)
  {
    exists i :: 0 <= i < |ports| && IsDisplay(ports[i])
  }

  /** `list_com_ports`: the system's ports, as given. */
  function ListComPorts(system: seq<PortInfo>): seq<PortInfo>
  {
    system
  }

  /** The list the lookups scan: the one passed in, or the system's when none is. */
  function Candidates(ports: Option<seq<PortInfo>>, system: seq<PortInfo>): (ps: seq<PortInfo>)
    ensures ports.Some? ==> ps == ports.value
    ensures ports.None? ==> ps == system
  {
    if ports.Some? then ports.value else ListComPorts(system)
  }

  /** `format_port_info`: "device: description [hwid]". */
  function FormatPortInfo(p: PortInfo): (s: string)
    ensures |s| == |p.device| + |p.description| + |p.hwid| + 5
    ensures s[..|p.device|] == p.device && s[|p.device|..|p.device| + 2] == ": "
    ensures s[|p.device| + 2..|p.device| + 2 + |p.description|] == p.description
    ensures s[|s| - |p.hwid| - 1..|s| - 1] == p.hwid && s[|s| - 1] == ']'
  {
    p.device + ": " + p.description + " [" + p.hwid + "]"
  }

  /** `is_display_fs_connected`: `true` exactly when some candidate port is the display. */
  method IsDisplayFsConnected(ports: Option<seq<PortInfo>>, system: seq<PortInfo>) returns (connected: bool)
    ensures connected <==> AnyDisplay(Candidates(ports, system))
  {
    var ps := Candidates(ports, system);
    for i := 0 to |ps|
      invariant forall j :: 0 <= j < i ==> !IsDisplay(ps[j])
    {
      var port := ps[i];
      if port.vid.Some? && port.pid.Some? {
        if (port.vid.value, port.pid.value) in DisplayVidPids {
          return true;
        }
      }
    }
    return false;
  }

  /** `find_display_port`: the first candidate port that is the display, or `None` when there is none. */
  method FindDisplayPort(ports: Option<seq<PortInfo>>, system: seq<PortInfo>) returns (found: Option<PortInfo>)
    ensures found.None? <==> !AnyDisplay(Candidates(ports, system))
    ensures found.Some? ==> IsDisplay(found.value)
    ensures found.Some? ==>
      exists i :: 0 <= i < |Candidates(ports, system)| && Candidates(ports, system)[i] == found.value &&
        forall j :: 0 <= j < i ==> !IsDisplay(Candidates(ports, system)[j])
  {
    var ps := Candidates(ports, system);
    for i := 0 to |ps|
      invariant forall j :: 0 <= j < i ==> !IsDisplay(ps[j])
    {
      var port := ps[i];
      if port.vid.Some? && port.pid.Some? {
        if (port.vid.value, port.pid.value) in DisplayVidPids {
          return Some(port);
        }
      }
    }
    return None;
  }

  /** Whether a port is the display depends only on its ids: the CH340 and CH341 bridges are, a port with
      either id missing is not. */
  lemma KnownBridges(device: string, description: string, hwid: string, vid: Option<int>, pid: Option<int>)
    ensures IsDisplay(PortInfo(device, description, hwid, Some(0x1A86), Some(0x7523)))
    ensures IsDisplay(PortInfo(device, description, hwid, Some(0x1A86), Some(0x5523)))
    ensures vid.None? || pid.None? ==> !IsDisplay(PortInfo(device, description, hwid, vid, pid))
    ensures IsDisplay(PortInfo(device, description, hwid, vid, pid)) ==> vid == Some(0x1A86)
  {
  }
}
