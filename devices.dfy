/**
 * Choosing a capture device. The file system and OpenCV are observed
 * through a snapshot per scan: which device paths exist, which of them
 * `cv2.VideoCapture(path).isOpened()` accepts, and what `udevadm info
 * --query=property` prints for each.
 */
module Devices {
  import opened Wrappers
  import opened Text

  /** One scan's view of the device paths: those that exist and those OpenCV can open (an exception counts as not opened). */
  datatype Probe = Probe(present: set<string>, opens: set<string>)

  /** `f"/dev/video{i}"`. */
  function VideoDevice(i: nat): string {
    "/dev/video" + NatToString(i)
  }

  lemma VideoDeviceInjective(i: nat, j: nat)
    requires VideoDevice(i) == VideoDevice(j)
    ensures i == j
  {
    assert NatToString(i) == VideoDevice(i)[10..] == VideoDevice(j)[10..] == NatToString(j);
    NatToStringInjective(i, j);
  }

  /** A path that exists and opens. */
  predicate Usable(p: Probe, path: string) {
    path in p.present && path in p.opens
  }

  /**
   * One round of `wait_for_camera`: if the configured path exists, only it
   * is tried; otherwise `/dev/video0` to `/dev/video9` are tried in order and
   * the first that exists and opens is taken. `None` means the round found
   * nothing and the caller sleeps and tries again.
   */
  method ScanRound(configured: string, p: Probe) returns (found: Option<string>)
    ensures configured in p.present ==> found == if configured in p.opens then Some(configured) else None
    ensures configured !in p.present && found.Some? ==>
      exists i :: 0 <= i < 10 && found.value == VideoDevice(i) && Usable(p, VideoDevice(i))
        && forall j :: 0 <= j < i ==> !Usable(p, VideoDevice(j))
    ensures configured !in p.present && found.None? ==> forall i :: 0 <= i < 10 ==> !Usable(p, VideoDevice(i))
    ensures found == FirstUsable(configured, p, 0)
  {
    if configured in p.present {
      found := if configured in p.opens then Some(configured) else None;
      return;
    }
    found := None;
    for i := 0 to 10
      invariant forall j :: 0 <= j < i ==> !Usable(p, VideoDevice(j))
      invariant FirstUsable(configured, p, 0) == FirstUsable(configured, p, i)
    {
      var devicePath := VideoDevice(i);
      if devicePath in p.present && devicePath in p.opens {
        found := Some(devicePath);
        return;
      }
    }
  }

  /** The device `ScanRound` settles on, as a function of the snapshot. */
  function FirstUsable(configured: string, p: Probe, from: nat): Option<string>
    decreases 10 - from
  {
    if configured in p.present then (if configured in p.opens then Some(configured) else None)
    else if from >= 10 then None
    else if Usable(p, VideoDevice(from)) then Some(VideoDevice(from))
    else FirstUsable(configured, p, from + 1)
  }

  /** A round finds something exactly when the configured device is usable, or is missing and some `/dev/video0..9` is usable. */
  lemma {:induction false} FirstUsableFinds(configured: string, p: Probe, from: nat)
    requires from <= 10
    ensures FirstUsable(configured, p, from).Some? <==>
      Usable(p, configured) || (configured !in p.present && exists i :: from <= i < 10 && Usable(p, VideoDevice(i)))
    decreases 10 - from
  {
    if configured !in p.present && from < 10 {
      FirstUsableFinds(configured, p, from + 1);
    }
  }

  /** What `udevadm info --query=property --name=<path>` printed for each path; a path missing from the map made it fail. */
  datatype UdevProbe = UdevProbe(present: set<string>, properties: map<string, string>)

  /** A path counts as a USB camera when it exists and its udev properties mention `ID_USB_DRIVER`. */
  predicate IsUsbCamera(u: UdevProbe, path: string) {
    path in u.present && path in u.properties && Contains(u.properties[path], "ID_USB_DRIVER")
  }

  /** The indices below `n` whose device is a USB camera, ascending. */
  function UsbIndices(u: UdevProbe, n: nat): seq<nat>
    decreases n
  {
    if n == 0 then []
    else UsbIndices(u, n - 1) + (if IsUsbCamera(u, VideoDevice(n - 1)) then [n - 1] else [])
  }

  /** The USB camera indices are exactly the USB cameras below `n`, strictly ascending. */
  lemma {:induction false} UsbIndicesSpec(u: UdevProbe, n: nat)
    ensures forall i: nat :: i in UsbIndices(u, n) <==> i < n && IsUsbCamera(u, VideoDevice(i))
    ensures forall k, l :: 0 <= k < l < |UsbIndices(u, n)| ==> UsbIndices(u, n)[k] < UsbIndices(u, n)[l]
    decreases n
  {
    if n > 0 {
      UsbIndicesSpec(u, n - 1);
      var prev := UsbIndices(u, n - 1);
      forall k | 0 <= k < |prev| ensures prev[k] < n - 1 {
        assert prev[k] in prev;
      }
    }
  }

  /** `get_usb_cameras`: the USB camera paths among `/dev/video0..9`, in index order. */
  method GetUsbCameras(u: UdevProbe) returns (cameras: seq<string>)
    ensures |cameras| == |UsbIndices(u, 10)|
    ensures forall k :: 0 <= k < |cameras| ==> cameras[k] == VideoDevice(UsbIndices(u, 10)[k])
  {
    cameras := [];
    for i := 0 to 10
      invariant |cameras| == |UsbIndices(u, i)|
      invariant forall k :: 0 <= k < |cameras| ==> cameras[k] == VideoDevice(UsbIndices(u, i)[k])
    {
      var cameraPath := VideoDevice(i);
      if cameraPath in u.present {
        if cameraPath in u.properties && Contains(u.properties[cameraPath], "ID_USB_DRIVER") {
          cameras := cameras + [cameraPath];
        }
      }
    }
  }

  /** `get_usb_cameras` returns each USB camera once, and nothing else. */
  lemma UsbCamerasExactly(u: UdevProbe, cameras: seq<string>, path: string)
    requires |cameras| == |UsbIndices(u, 10)|
    requires forall k :: 0 <= k < |cameras| ==> cameras[k] == VideoDevice(UsbIndices(u, 10)[k])
    ensures path in cameras <==> exists i :: 0 <= i < 10 && path == VideoDevice(i) && IsUsbCamera(u, path)
    ensures forall k, l :: 0 <= k < l < |cameras| ==> cameras[k] != cameras[l]
  {
    UsbIndicesSpec(u, 10);
    var idx := UsbIndices(u, 10);
    if path in cameras {
      var k :| 0 <= k < |cameras| && cameras[k] == path;
      assert idx[k] in idx;
    }
    if exists i :: 0 <= i < 10 && path == VideoDevice(i) && IsUsbCamera(u, path) {
      var i :| 0 <= i < 10 && path == VideoDevice(i) && IsUsbCamera(u, path);
      assert i in idx;
      var k :| 0 <= k < |idx| && idx[k] == i;
      assert cameras[k] == path;
    }
    forall k, l | 0 <= k < l < |cameras| ensures cameras[k] != cameras[l] {
      if cameras[k] == cameras[l] {
        VideoDeviceInjective(idx[k], idx[l]);
      }
    }
  }

  datatype StartupError = IndexError

  /**
   * `camera_path = get_usb_cameras()[0] if get_usb_cameras() else None`: two
   * separate scans, the first deciding whether there is a camera and the
   * second supplying it; an empty second scan raises `IndexError`.
   */
  function CameraPath(firstScan: seq<string>, secondScan: seq<string>): (r: Result<Option<string>, StartupError>)
    ensures r == Success(None) <==> |firstScan| == 0
    ensures r.Failure? <==> |firstScan| > 0 && |secondScan| == 0
    ensures r.Success? && r.value.Some? ==> r.value.value == secondScan[0]
  {
    if |firstScan| > 0 then
      if |secondScan| > 0 then Success(Some(secondScan[0])) else Failure(IndexError)
    else Success(None)
  }

  /** When nothing is plugged or unplugged between the two scans, the camera is the first USB camera, or none. */
  lemma CameraPathStable(scan: seq<string>)
    ensures CameraPath(scan, scan) == Success(if |scan| > 0 then Some(scan[0]) else None)
  {
  }
}
