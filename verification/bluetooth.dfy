/**
 * The device-connectivity oracle of src/bluetooth_manager.py. On Windows the
 * active devices are the friendly names a PowerShell query prints, one per
 * line; the query itself is outside the model and arrives as a `Probe`. On
 * every other system a fixed mock list is reported and every named device
 * counts as connected.
 */
module Bluetooth {
  import opened PyValue
  import opened Text

  /** The operating system `platform.system()` reports; only Windows is told apart. */
  datatype Os = Windows | OtherOs

  /**
   * What running the PowerShell device query produced: its return code and
   * standard output, or an exception raised while starting it.
   */
  datatype Probe = Ran(returnCode: int, stdout: string) | Crashed

  /** The device list reported off Windows. */
  const MockDevices: seq<string> := ["Galaxy Buds Pro", "AirPods", "Sony WH-1000XM4", "Logitech MX Master"]

  /** The stripped, non-blank lines: the names the query output lists. */
  function ListedNames(lines: seq<string>): set<string> {
    set l | l in lines && Strip(l) != "" :: Strip(l)
  }

  /**
   * `sorted(list(set(...)))` over the stripped, non-blank lines: the names in
   * strictly ascending order, exactly the stripped non-blank lines, each once.
   */
  function Normalize(lines: seq<string>): (names: seq<string>)
    ensures StrictlyAscending(names)
    ensures Elems(names) == ListedNames(lines)
  {
    if |lines| == 0 then []
    else
      var name := Strip(lines[0]);
      var rest := Normalize(lines[1..]);
      ListedNamesCons(lines);
      if name == "" then rest else InsertSorted(rest, name)
  }

  lemma ListedNamesCons(lines: seq<string>)
    requires |lines| > 0
    ensures ListedNames(lines)
            == (if Strip(lines[0]) == "" then {} else {Strip(lines[0])}) + ListedNames(lines[1..])
  {
    var head := if Strip(lines[0]) == "" then {} else {Strip(lines[0])};
    forall n | n in ListedNames(lines) ensures n in head + ListedNames(lines[1..]) {
      var l :| l in lines && Strip(l) != "" && Strip(l) == n;
      var i :| 0 <= i < |lines| && lines[i] == l;
      if i > 0 {
        assert lines[1..][i - 1] == l;
      }
    }
    forall n | n in head + ListedNames(lines[1..]) ensures n in ListedNames(lines) {
      if n !in head {
        var l :| l in lines[1..] && Strip(l) != "" && Strip(l) == n;
        assert l in lines;
      }
    }
  }

  /** The names `_get_windows_devices` reports for a query outcome. */
  function WindowsDevices(probe: Probe): (names: seq<string>)
    ensures StrictlyAscending(names)
    ensures probe.Crashed? || probe.returnCode != 0 ==> names == []
    ensures probe.Ran? && probe.returnCode == 0 ==> Elems(names) == ListedNames(Split(probe.stdout, '\n'))
  {
    match probe
    case Crashed => []
    case Ran(code, out) => if code != 0 then [] else Normalize(Split(out, '\n'))
  }

  /** `get_paired_devices`: the query's names on Windows, the mock list elsewhere. */
  function PairedDevices(os: Os, probe: Probe): (names: seq<string>)
    ensures os == OtherOs ==> names == MockDevices
    ensures os == Windows ==> names == WindowsDevices(probe)
  {
    if os == Windows then WindowsDevices(probe) else MockDevices
  }

  /**
   * `_check_windows_connection`: membership of the configured name in the
   * active list. The name is whatever the configuration holds, and only a
   * string can equal a listed name.
   */
  function CheckWindowsConnection(name: Value, probe: Probe): (r: bool)
    ensures r <==> name.Str? && probe.Ran? && probe.returnCode == 0
                   && name.s in ListedNames(Split(probe.stdout, '\n'))
  {
    name.Str? && name.s in WindowsDevices(probe)
  }

  /** `_check_mock_connection`: every device counts as connected. */
  function CheckMockConnection(name: Value): (r: bool)
    ensures r
  {
    true
  }

  /** `is_device_connected`: never for an empty name, otherwise per system. */
  function IsDeviceConnected(os: Os, name: Value, probe: Probe): (r: bool)
    ensures !Truthy(name) ==> !r
    ensures Truthy(name) && os == OtherOs ==> r
    ensures os == Windows ==> (r <==> name.Str? && name.s != "" && probe.Ran? && probe.returnCode == 0
                                      && name.s in ListedNames(Split(probe.stdout, '\n')))
  {
    if !Truthy(name) then false
    else if os == Windows then CheckWindowsConnection(name, probe)
    else CheckMockConnection(name)
  }

  /** Every reported name is a non-empty stripped line of the output, and every non-blank line is reported stripped. */
  lemma NormalizedLines(stdout: string, names: seq<string>)
    requires names == WindowsDevices(Ran(0, stdout))
    ensures forall n :: n in names ==> n != "" && exists l :: l in Split(stdout, '\n') && Strip(l) == n
    ensures forall l :: l in Split(stdout, '\n') && Strip(l) != "" ==> Strip(l) in names
  {
    forall n | n in names
      ensures n != "" && exists l :: l in Split(stdout, '\n') && Strip(l) == n
    {
      assert n in Elems(names);
    }
    forall l | l in Split(stdout, '\n') && Strip(l) != ""
      ensures Strip(l) in names
    {
      assert Strip(l) in Elems(names);
    }
  }

  /**
   * The reported list is the one `sorted(list(set(...)))` yields: any strictly
   * ascending list of exactly the listed names is equal to it.
   */
  lemma NormalizeIsSortedSet(stdout: string, sorted: seq<string>)
    requires StrictlyAscending(sorted)
    requires Elems(sorted) == ListedNames(Split(stdout, '\n'))
    ensures WindowsDevices(Ran(0, stdout)) == sorted
  {
    AscendingUnique(WindowsDevices(Ran(0, stdout)), sorted);
  }
}
