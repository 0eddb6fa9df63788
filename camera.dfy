/**
 * The recorder service's `CameraInterface`: the storage root chosen at
 * start-up, the receive loop's failed-read counter and device recovery, and
 * the recording life cycle with the relocation of a staged recording onto
 * USB storage. The camera, the file system, the clock and the child
 * processes are observed through parameters.
 */
module Camera {
  import opened Wrappers
  import opened Paths
  import opened Frames
  import opened Devices

  /** `sys.exit(1)` at start-up: USB mode without a USB path. */
  datatype StartupExit = UsbPathNotSet

  /** A configured path is usable when it is neither `null` nor empty. */
  predicate Truthy(path: Option<string>) {
    path.Some? && path.value != ""
  }

  /**
   * `init_folder_struct`: `<usb_path>/picasso` in USB mode when the USB path
   * exists, `<other_path>/picasso` otherwise in disk mode (`other_path`
   * already expanded), and no root at all in USB mode when the USB path is
   * missing. Only the returned root is modelled, not the directories made.
   */
  function FolderRoot(usbMode: bool, usbPath: Option<string>, usbPathExists: bool, otherPath: string): (r: Result<Option<string>, StartupExit>)
    ensures r.Failure? <==> usbMode && !Truthy(usbPath)
    ensures r.Success? && r.value.Some? ==> |r.value.value| >= 7 && r.value.value[|r.value.value| - 7..] == "picasso"
    ensures usbMode && Truthy(usbPath) && usbPathExists ==> r == Success(Some(PathJoin(usbPath.value, "picasso")))
    ensures usbMode && Truthy(usbPath) && !usbPathExists ==> r == Success(None)
    ensures !usbMode ==> r == Success(Some(PathJoin(otherPath, "picasso")))
  {
    if usbMode && !Truthy(usbPath) then Failure(UsbPathNotSet)
    else if usbMode && usbPathExists then Success(Some(PathJoin(usbPath.value, "picasso")))
    else if !usbMode then Success(Some(PathJoin(otherPath, "picasso")))
    else Success(None)
  }

  /**
   * The failed-read counter after one read of the receive loop: a good read
   * clears it, a failed one increments it, and the tenth failure in a row
   * waits for the camera and clears it.
   */
  function NextCount(count: nat, readOk: bool): (r: nat)
    requires count < 10
    ensures r < 10
    ensures readOk ==> r == 0
    ensures !readOk ==> r == (count + 1) % 10
  {
    if readOk then 0
    else if count + 1 >= 10 then 0
    else count + 1
  }

  /** The counter after `n` failed reads in a row. */
  function FailRun(count: nat, n: nat): (r: nat)
    requires count < 10
    ensures r < 10
    decreases n
  {
    if n == 0 then count else NextCount(FailRun(count, n - 1), false)
  }

  /** After `n` failures in a row starting from `count`, the counter is `(count + n) % 10`. */
  lemma {:induction false} FailRunMod(count: nat, n: nat)
    requires count < 10
    ensures FailRun(count, n) == (count + n) % 10
    decreases n
  {
    if n > 0 {
      FailRunMod(count, n - 1);
      ModTenStep(count + n - 1);
    }
  }

  /** Counting on by one modulo ten. */
  lemma ModTenStep(x: nat)
    ensures (x + 1) % 10 == (x % 10 + 1) % 10
  {
    var q, c := x / 10, x % 10;
    assert x == q * 10 + c;
    if c == 9 {
      assert x + 1 == (q + 1) * 10;
    } else {
      assert x + 1 == q * 10 + (c + 1);
    }
  }

  /** From a cleared counter, the device wait comes at exactly every tenth failure in a row. */
  lemma WaitsEveryTenthFailure(n: nat)
    ensures FailRun(0, n) == 0 <==> n % 10 == 0
  {
    FailRunMod(0, n);
  }

  /** What one pass of the receive loop did. */
  datatype Tick =
    | Sent(frame: Frame)   // a frame went to the virtual camera
    | Recovered            // the tenth failed read: waited for the camera, nothing sent
    | Crashed              // OpenCV raised in `on_frame`; the receive loop ends

  function Deliver(out: Option<Frame>): Tick {
    if out.Some? then Sent(out.value) else Crashed
  }

  /** The relocation record `metadata["saving"]`. */
  datatype Saving = Saving(complete: bool, totalBytes: nat, movedBytes: nat)

  /** How a request to the service fails. */
  datatype CameraError =
    | NoRoot        // `os.path.join(None, ...)` raised `TypeError`: no storage root
    | SpawnFailed   // `subprocess.Popen` could not start the encoder
    | KillFailed    // `os.kill` raised: no such process
    | SourceMissing // `os.path.getsize` raised on the staged recording
    | EmptyImage    // `cv2.imwrite` raised: the frame to write has no pixels

  class CameraInterface {
    /** `config["usb_mode"]`. */
    const usbMode: bool
    /** The configured resolution. */
    const width: nat
    const height: nat
    /** The placeholder frame sent while the camera fails. */
    const blackFrame: Frame
    /** `self.root` from `init_folder_struct`. */
    const root: Option<string>

    /** `config["camera_device"]`, rewritten by the device scan. */
    var cameraDevice: string
    var failedFrameCount: nat
    var curFrame: Option<Frame>
    var tempOutputPath: Option<string>
    var ffmpegPid: Option<int>
    /** `metadata["recording"]`, `metadata["start_time"]` and `metadata["saving"]`. */
    var recording: bool
    var startTime: Option<string>
    var saving: Saving

    /**
     * The counter is always below ten between passes, a recording is staged
     * only in USB mode and only with a root, the disk mode always has a root,
     * and the relocation is never marked complete.
     */
    predicate Valid()
      reads this
    {
      && failedFrameCount < 10
      && (tempOutputPath.Some? ==> usbMode && root.Some?)
      && (!usbMode ==> root.Some?)
      && !saving.complete
    }

    /** `__init__` with the root from `init_folder_struct` and the parsed resolution. */
    constructor(usbMode: bool, root: Option<string>, cameraDevice: string, width: nat, height: nat)
      requires !usbMode ==> root.Some?
      ensures Valid()
      ensures this.usbMode == usbMode && this.root == root && this.cameraDevice == cameraDevice
      ensures this.width == width && this.height == height && blackFrame == BlackFrame(width, height)
      ensures failedFrameCount == 0 && curFrame.None? && tempOutputPath.None? && ffmpegPid.None?
      ensures !recording && startTime.None? && saving == Saving(false, 0, 0)
    {
      this.usbMode := usbMode;
      this.root := root;
      this.cameraDevice := cameraDevice;
      this.width := width;
      this.height := height;
      blackFrame := BlackFrame(width, height);
      failedFrameCount := 0;
      curFrame := None;
      tempOutputPath := None;
      ffmpegPid := None;
      recording := false;
      startTime := None;
      saving := Saving(false, 0, 0);
    }

    /**
     * `wait_for_camera`: scan round after round until one finds a device, and
     * make that device the configured one. `rounds` is what each round sees;
     * the source loops for ever, so some round must find a device.
     */
    method WaitForCamera(rounds: seq<Probe>) returns (round: nat)
      requires exists k :: 0 <= k < |rounds| && FirstUsable(cameraDevice, rounds[k], 0).Some?
      modifies this
      ensures round < |rounds| && FirstUsable(old(cameraDevice), rounds[round], 0) == Some(cameraDevice)
      ensures forall k :: 0 <= k < round ==> FirstUsable(old(cameraDevice), rounds[k], 0).None?
      ensures failedFrameCount == old(failedFrameCount) && curFrame == old(curFrame)
      ensures tempOutputPath == old(tempOutputPath) && ffmpegPid == old(ffmpegPid)
      ensures recording == old(recording) && startTime == old(startTime) && saving == old(saving)
    {
      ghost var w :| 0 <= w < |rounds| && FirstUsable(cameraDevice, rounds[w], 0).Some?;
      var i := 0;
      while true
        invariant i <= w
        invariant unchanged(this)
        invariant forall k :: 0 <= k < i ==> FirstUsable(old(cameraDevice), rounds[k], 0).None?
        decreases w - i
      {
        var found := ScanRound(cameraDevice, rounds[i]);
        if found.Some? {
          cameraDevice := found.value;
          return i;
        }
        i := i + 1;
      }
    }

    /**
     * One pass of `recv_frame`. A good read is kept as the current frame and
     * sent; a failed read sends the placeholder instead, and the tenth one in
     * a row waits for the camera (`rounds`) and sends nothing. Sending is
     * `on_frame`.
     */
    method ReceiveStep(read: Option<Frame>, rounds: seq<Probe>) returns (tick: Tick)
      requires Valid()
      requires read.None? && failedFrameCount == 9 ==>
        exists k :: 0 <= k < |rounds| && FirstUsable(cameraDevice, rounds[k], 0).Some?
      modifies this
      ensures Valid()
      ensures failedFrameCount == NextCount(old(failedFrameCount), read.Some?)
      ensures read.Some? ==> curFrame == read && tick == Deliver(OnFrame(read.value, blackFrame, width, height))
      ensures read.None? && old(failedFrameCount) < 9 ==>
        curFrame == Some(blackFrame) && tick == Deliver(OnFrame(blackFrame, blackFrame, width, height))
      ensures read.None? && old(failedFrameCount) == 9 ==> curFrame == old(curFrame) && tick == Recovered
      ensures read.None? && old(failedFrameCount) == 9 ==>
        exists k :: 0 <= k < |rounds| && FirstUsable(old(cameraDevice), rounds[k], 0) == Some(cameraDevice)
          && forall j :: 0 <= j < k ==> FirstUsable(old(cameraDevice), rounds[j], 0).None?
      ensures !(read.None? && old(failedFrameCount) == 9) ==> cameraDevice == old(cameraDevice)
      ensures tempOutputPath == old(tempOutputPath) && ffmpegPid == old(ffmpegPid)
      ensures recording == old(recording) && startTime == old(startTime) && saving == old(saving)
    {
      var frame: Frame;
      if read.None? {
        frame := blackFrame;
        failedFrameCount := failedFrameCount + 1;
        if failedFrameCount >= 10 {
          var round := WaitForCamera(rounds);
          failedFrameCount := 0;
          assert FirstUsable(old(cameraDevice), rounds[round], 0) == Some(cameraDevice);
          return Recovered;
        }
      } else {
        frame := read.value;
        failedFrameCount := 0;
      }
      curFrame := Some(frame);
      tick := Deliver(OnFrame(frame, blackFrame, width, height));
    }

    /**
     * `start_recording`, with no check that a recording is already running:
     * mark recording and its start time, name the dated video (which fails
     * without a root), then point the encoder at a staging file in USB mode
     * or at the dated video otherwise. Returns the encoder's output path.
     */
    method StartRecording(isoNow: string, now: LocalTime, epoch: nat, spawned: Option<int>) returns (r: Result<string, CameraError>)
      requires Valid() && ValidTime(now)
      modifies this
      ensures Valid()
      ensures recording && startTime == Some(isoNow)
      ensures root.None? ==> r == Failure(NoRoot) && tempOutputPath == old(tempOutputPath)
      ensures root.Some? && usbMode ==> tempOutputPath == Some(TempPath(epoch))
      ensures root.Some? && !usbMode ==> tempOutputPath.None?
      ensures root.Some? && spawned.None? ==> r == Failure(SpawnFailed)
      ensures root.Some? && spawned.Some? ==>
        r == Success(if usbMode then TempPath(epoch) else VideoPath(root.value, now))
      ensures ffmpegPid == if root.Some? && spawned.Some? then spawned else old(ffmpegPid)
      ensures failedFrameCount == old(failedFrameCount) && curFrame == old(curFrame)
      ensures cameraDevice == old(cameraDevice) && saving == old(saving)
    {
      recording := true;
      startTime := Some(isoNow);
      if root.None? {
        return Failure(NoRoot);
      }
      var nextVideoPath := VideoPath(root.value, now);
      var outputPath: string;
      if usbMode {
        tempOutputPath := Some(TempPath(epoch));
        outputPath := TempPath(epoch);
      } else {
        outputPath := nextVideoPath;
        tempOutputPath := None;
      }
      if spawned.None? {
        return Failure(SpawnFailed);
      }
      ffmpegPid := spawned;
      r := Success(outputPath);
    }

    /**
     * `metadata_track_filemove`: record the staged file's size, start the
     * move, then poll the destination until it has that size, recording each
     * size seen. `polls` is what each poll sees (`None`: not there yet); the
     * source polls for ever, so one poll must see the whole file.
     */
    method TrackFileMove(sourceSize: Option<nat>, polls: seq<Option<nat>>) returns (ok: bool, ghost polled: nat)
      requires Valid()
      requires sourceSize.Some? ==> exists k :: 0 <= k < |polls| && polls[k] == Some(sourceSize.value)
      modifies this
      ensures Valid()
      ensures ok <==> sourceSize.Some?
      ensures !ok ==> saving == old(saving)
      ensures ok ==> saving == Saving(false, sourceSize.value, sourceSize.value)
      ensures ok ==> polled < |polls| && polls[polled] == sourceSize && forall j :: 0 <= j < polled ==> polls[j] != sourceSize
      ensures failedFrameCount == old(failedFrameCount) && curFrame == old(curFrame) && cameraDevice == old(cameraDevice)
      ensures tempOutputPath == old(tempOutputPath) && ffmpegPid == old(ffmpegPid)
      ensures recording == old(recording) && startTime == old(startTime)
    {
      if sourceSize.None? {
        return false, 0;
      }
      var originalSize := sourceSize.value;
      saving := Saving(false, originalSize, 0);
      ghost var w :| 0 <= w < |polls| && polls[w] == Some(originalSize);
      var i := 0;
      while true
        invariant i <= w
        invariant Valid()
        invariant saving.totalBytes == originalSize
        invariant forall j :: 0 <= j < i ==> polls[j] != sourceSize
        invariant failedFrameCount == old(failedFrameCount) && curFrame == old(curFrame) && cameraDevice == old(cameraDevice)
        invariant tempOutputPath == old(tempOutputPath) && ffmpegPid == old(ffmpegPid)
        invariant recording == old(recording) && startTime == old(startTime)
        decreases w - i
      {
        if polls[i].Some? {
          var newSize := polls[i].value;
          if newSize == originalSize {
            saving := saving.(movedBytes := newSize, complete := false);
            return true, i;
          }
          saving := saving.(movedBytes := newSize);
        }
        i := i + 1;
      }
    }

    /**
     * `stop_recording`: clear the recording mark, signal the encoder if a
     * process id is held (a zero id counts as none; the id is never cleared),
     * and in USB mode relocate a staged recording to a freshly named dated
     * video and forget the staging path. `killOk` says whether the signal
     * reached a process; `sourceSize` and `polls` feed the relocation.
     * Returns where the recording was relocated, if it was.
     */
    method StopRecording(now: LocalTime, killOk: bool, sourceSize: Option<nat>, polls: seq<Option<nat>>)
      returns (r: Result<Option<string>, CameraError>)
      requires Valid() && ValidTime(now)
      requires sourceSize.Some? ==> exists k :: 0 <= k < |polls| && polls[k] == Some(sourceSize.value)
      modifies this
      ensures Valid()
      ensures !recording && ffmpegPid == old(ffmpegPid)
      ensures var signalled := old(ffmpegPid).Some? && old(ffmpegPid).value != 0;
        var staged := old(tempOutputPath).Some? && old(tempOutputPath).value != "" && usbMode;
        && (signalled && !killOk ==> r == Failure(KillFailed) && tempOutputPath == old(tempOutputPath) && saving == old(saving))
        && ((!signalled || killOk) && !staged ==> r == Success(None) && tempOutputPath == old(tempOutputPath) && saving == old(saving))
        && ((!signalled || killOk) && staged && sourceSize.None? ==>
              r == Failure(SourceMissing) && tempOutputPath == old(tempOutputPath) && saving == old(saving))
        && ((!signalled || killOk) && staged && sourceSize.Some? ==>
              r == Success(Some(VideoPath(root.value, now))) && tempOutputPath.None?
              && saving == Saving(false, sourceSize.value, sourceSize.value))
      ensures failedFrameCount == old(failedFrameCount) && curFrame == old(curFrame)
      ensures cameraDevice == old(cameraDevice) && startTime == old(startTime)
    {
      recording := false;
      if ffmpegPid.Some? && ffmpegPid.value != 0 {
        if !killOk {
          return Failure(KillFailed);
        }
      }
      if tempOutputPath.Some? && tempOutputPath.value != "" && usbMode {
        var nextVideoPath := VideoPath(root.value, now);
        var ok, _ := TrackFileMove(sourceSize, polls);
        if !ok {
          return Failure(SourceMissing);
        }
        tempOutputPath := None;
        return Success(Some(nextVideoPath));
      }
      r := Success(None);
    }

    /**
     * `take_picture`: the dated picture name (which fails without a root) and
     * the frame written there, the current frame or else the placeholder.
     * `cv2.imwrite` refuses a frame without pixels.
     */
    function Snapshot(now: LocalTime): (r: Result<(string, Frame), CameraError>)
      requires ValidTime(now)
      reads this
      ensures r.Failure? <==>
        || root.None?
        || (curFrame.Some? && IsEmpty(curFrame.value))
        || (curFrame.None? && IsEmpty(blackFrame))
      ensures root.None? ==> r == Failure(NoRoot)
      ensures r.Failure? && root.Some? ==> r.error == EmptyImage
      ensures r.Success? ==> r.value.0 == PicturePath(root.value, now) && !IsEmpty(r.value.1)
      ensures r.Success? && curFrame.Some? ==> r.value.1 == curFrame.value
      ensures r.Success? && curFrame.None? ==> r.value.1 == blackFrame
    {
      if root.None? then Failure(NoRoot)
      else
        var frame := if curFrame.Some? then curFrame.value else blackFrame;
        if IsEmpty(frame) then Failure(EmptyImage)
        else Success((PicturePath(root.value, now), frame))
    }
  }

  /** In disk mode a root is always found, so recordings and pictures can always be named. */
  lemma DiskModeHasRoot(usbPath: Option<string>, usbPathExists: bool, otherPath: string)
    ensures FolderRoot(false, usbPath, usbPathExists, otherPath).Success?
    ensures FolderRoot(false, usbPath, usbPathExists, otherPath).value.Some?
  {
  }
}
