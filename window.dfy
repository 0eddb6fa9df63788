/**
 * The desktop variant's `WindowInterface`: the storage directory chosen at
 * start-up, the chunked copy of a finished recording with its progress, the
 * picture flags, the recording state, the preview resolution index and the
 * overlay drawn on each preview frame. Clocks are seconds as `real`; file
 * contents are byte sequences.
 */
module Window {
  import opened Wrappers
  import opened Text
  import opened Paths
  import opened Frames
  import opened Overlay

  /** ASCII `str.lower` of one character. */
  function LowerChar(c: char): char {
    if 'A' <= c <= 'Z' then (c as int + 32) as char else c
  }

  function Lower(s: string): (r: string)
    ensures |r| == |s|
    ensures forall i :: 0 <= i < |s| ==> r[i] == LowerChar(s[i])
  {
    seq(|s|, i requires 0 <= i < |s| => LowerChar(s[i]))
  }

  /** A `/media` entry whose name, in lower case, contains `usb`. */
  predicate IsUsbEntry(entry: string) {
    Contains(Lower(entry), "usb")
  }

  /** The first entry of `os.listdir("/media")` that looks like a USB drive. */
  function FirstUsbEntry(entries: seq<string>): (r: Option<string>)
    ensures r.Some? <==> exists i :: 0 <= i < |entries| && IsUsbEntry(entries[i])
    ensures r.Some? ==>
      exists i :: 0 <= i < |entries| && entries[i] == r.value && IsUsbEntry(r.value)
        && forall j :: 0 <= j < i ==> !IsUsbEntry(entries[j])
  {
    if |entries| == 0 then None
    else if IsUsbEntry(entries[0]) then Some(entries[0])
    else
      var rest := FirstUsbEntry(entries[1..]);
      assert forall i :: 1 <= i < |entries| ==> entries[i] == entries[1..][i - 1];
      rest
  }

  /** `picasso_dir`: the first USB drive under `/media`, or `picasso` in the home directory. */
  function PicassoDir(entries: seq<string>, home: string): (dir: string)
    ensures FirstUsbEntry(entries).Some? ==> dir == PathJoin("/media", FirstUsbEntry(entries).value)
    ensures FirstUsbEntry(entries).None? ==> dir == PathJoin(home, "picasso")
  {
    match FirstUsbEntry(entries)
    case Some(entry) => PathJoin("/media", entry)
    case None => PathJoin(home, "picasso")
  }

  /** The buffer size of the copy: 256 blocks of 4096 bytes. */
  const Chunk: nat := 256 * 4096

  function Min(a: nat, b: nat): nat {
    if a <= b then a else b
  }

  /** `copied / total_size * 100`. */
  function Percent(copied: nat, total: nat): real
    requires total > 0
  {
    copied as real / total as real * 100.0
  }

  /** Bytes copied once `k` chunks of a source of `n` bytes have been read. */
  function CopiedAfter(k: nat, n: nat): nat {
    Min(k * Chunk, n)
  }

  /** How copying a finished recording fails. */
  datatype MoveError =
    | SourceMissing   // `os.path.getsize` raised
    | ZeroDivision    // the source was empty when measured but not when read

  class WindowInterface {
    /** `picasso_dir`. */
    const picassoDir: string
    /** When the window was created. */
    const uptime: real

    var outputFrame: Option<Frame>
    var rescaledFrame: Option<Frame>
    var rescaledFrameResolution: (nat, nat)
    var picLabelTime: real
    var picShowError: bool
    var picShowSaved: bool
    var stat: bool
    var fileMoveStartTime: real
    var fileMoveTargetPath: string
    var fileMovedPercentage: real
    var movingFile: bool
    var recording: bool
    var nextVideoPath: string
    var nextPicturePath: string
    var recordingTime: string
    var recordingStartTime: real
    /** The module-level `PREVIEW_RES_INDEX`. */
    var previewResIndex: int

    /** The recording time label always has the `HH:MM:SS` width. */
    predicate Valid()
      reads this
    {
      |recordingTime| == 8
    }

    /** What `draw_interface` reads. */
    function State(): OverlayState
      reads this
    {
      OverlayState(rescaledFrame.Some?, uptime, recording, recordingStartTime, picLabelTime,
                   picShowSaved, picShowError, stat, movingFile, fileMovedPercentage)
    }

    /** `__init__` at clock `clock` and local time `now`. */
    constructor(picassoDir: string, clock: real, now: LocalTime)
      requires ValidTime(now)
      ensures Valid()
      ensures this.picassoDir == picassoDir && uptime == clock && recordingStartTime == clock
      ensures outputFrame.None? && rescaledFrame.None? && rescaledFrameResolution == (800, 600)
      ensures picLabelTime == 0.0 && !picShowError && !picShowSaved && !stat
      ensures fileMoveStartTime == 0.0 && fileMoveTargetPath == "" && fileMovedPercentage == 0.0 && !movingFile
      ensures !recording && recordingTime == "--:--:--" && previewResIndex == 0
      ensures nextVideoPath == VideoPath(picassoDir, now) && nextPicturePath == PicturePath(picassoDir, now)
    {
      this.picassoDir := picassoDir;
      uptime := clock;
      outputFrame := None;
      rescaledFrame := None;
      rescaledFrameResolution := (800, 600);
      picLabelTime := 0.0;
      picShowError := false;
      picShowSaved := false;
      stat := false;
      fileMoveStartTime := 0.0;
      fileMoveTargetPath := "";
      fileMovedPercentage := 0.0;
      movingFile := false;
      recording := false;
      nextVideoPath := VideoPath(picassoDir, now);
      nextPicturePath := PicturePath(picassoDir, now);
      recordingTime := "--:--:--";
      recordingStartTime := clock;
      previewResIndex := 0;
    }

    /** `update_next_paths`. */
    method UpdateNextPaths(now: LocalTime)
      requires ValidTime(now)
      modifies this`nextVideoPath, this`nextPicturePath
      ensures nextVideoPath == VideoPath(picassoDir, now) && nextPicturePath == PicturePath(picassoDir, now)
    {
      nextVideoPath := VideoPath(picassoDir, now);
      nextPicturePath := PicturePath(picassoDir, now);
    }

    /**
     * `shutil_progress_track`: measure the source (`totalSize`, `None` when
     * that raises), mark the move as running, then copy `src` chunk by chunk,
     * reporting after each chunk the percentage copied, and mark the move as
     * finished. Returns what was written to `toPath` and the percentages
     * reported. A source measured empty but read non-empty raises on the first
     * percentage, leaving the move marked as running.
     */
    method ShutilProgressTrack(src: seq<bv8>, totalSize: Option<nat>, toPath: string, clock: real)
      returns (dst: seq<bv8>, progress: seq<real>, r: Result<(), MoveError>)
      modifies this`fileMoveStartTime, this`fileMoveTargetPath, this`fileMovedPercentage, this`movingFile
      ensures totalSize.None? ==> r == Failure(SourceMissing) && dst == [] && progress == []
      ensures totalSize.None? ==>
        && movingFile == old(movingFile) && fileMovedPercentage == old(fileMovedPercentage)
        && fileMoveTargetPath == old(fileMoveTargetPath) && fileMoveStartTime == old(fileMoveStartTime)
      ensures totalSize.Some? ==> fileMoveTargetPath == toPath && fileMoveStartTime == clock
      ensures totalSize == Some(0) && |src| > 0 ==>
        && r == Failure(ZeroDivision) && dst == src[..Min(Chunk, |src|)] && progress == []
        && movingFile && fileMovedPercentage == 0.0
      ensures totalSize.Some? && (totalSize.value > 0 || |src| == 0) ==>
        && r == Success(()) && dst == src && !movingFile
        && (|src| == 0 <==> progress == [])
        && (|src| > 0 ==> (|progress| - 1) * Chunk < |src| <= |progress| * Chunk)
        && (forall k :: 0 <= k < |progress| ==> progress[k] == Percent(CopiedAfter(k + 1, |src|), totalSize.value))
        && fileMovedPercentage == if |src| == 0 then 0.0 else Percent(|src|, totalSize.value)
    {
      if totalSize.None? {
        return [], [], Failure(SourceMissing);
      }
      var total := totalSize.value;
      fileMoveStartTime := clock;
      fileMoveTargetPath := toPath;
      fileMovedPercentage := 0.0;
      movingFile := true;
      var copied: nat := 0;
      dst := [];
      progress := [];
      while true
        invariant copied == CopiedAfter(|progress|, |src|)
        invariant dst == src[..copied]
        invariant |progress| > 0 ==> (|progress| - 1) * Chunk < |src|
        invariant forall k :: 0 <= k < |progress| ==> total > 0 && progress[k] == Percent(CopiedAfter(k + 1, |src|), total)
        invariant fileMovedPercentage == if |progress| == 0 then 0.0 else progress[|progress| - 1]
        invariant movingFile && fileMoveTargetPath == toPath && fileMoveStartTime == clock
        decreases |src| - copied
      {
        var buf := src[copied..Min(copied + Chunk, |src|)];
        if |buf| == 0 {
          break;
        }
        dst := dst + buf;
        copied := copied + |buf|;
        if total == 0 {
          return dst, progress, Failure(ZeroDivision);
        }
        fileMovedPercentage := Percent(copied, total);
        progress := progress + [fileMovedPercentage];
      }
      assert copied == |src|;
      assert dst == src;
      movingFile := false;
      r := Success(());
    }

    /**
     * `take_picture`: name the next files, then save the current output frame
     * with its channels reversed and raise the saved flag, or, with no frame,
     * raise the error flag; either way restart the label timer. Neither flag
     * is ever lowered. Renaming the next files also renames a recording that
     * is running. Returns the picture written, if any.
     */
    method TakePicture(now: LocalTime, clock: real) returns (saved: Option<(string, Frame)>)
      requires ValidTime(now)
      modifies this`nextVideoPath, this`nextPicturePath, this`picLabelTime, this`picShowSaved, this`picShowError
      ensures nextVideoPath == VideoPath(picassoDir, now) && nextPicturePath == PicturePath(picassoDir, now)
      ensures outputFrame.Some? && !IsEmpty(outputFrame.value) ==>
        && saved == Some((PicturePath(picassoDir, now), Frame(outputFrame.value.width, outputFrame.value.height, Swapped(outputFrame.value.order))))
        && picShowSaved && picShowError == old(picShowError) && picLabelTime == clock
      ensures outputFrame.None? ==>
        saved.None? && picShowError && picShowSaved == old(picShowSaved) && picLabelTime == clock
      ensures outputFrame.Some? && IsEmpty(outputFrame.value) ==>
        saved.None? && picShowError == old(picShowError) && picShowSaved == old(picShowSaved) && picLabelTime == old(picLabelTime)
      ensures old(picShowSaved) ==> picShowSaved
      ensures old(picShowError) ==> picShowError
    {
      UpdateNextPaths(now);
      if outputFrame.Some? {
        var converted := ConvertColor(outputFrame.value);
        if converted.None? {
          return None;
        }
        saved := Some((nextPicturePath, converted.value));
        picLabelTime := clock;
        picShowSaved := true;
      } else {
        saved := None;
        picLabelTime := clock;
        picShowError := true;
      }
    }

    /**
     * The part of `start_recording` before it waits: name the next files,
     * start the encoder on the fixed staging file (`spawned` says whether
     * `subprocess.Popen` succeeded; when it raises, the names are already
     * refreshed but recording is not marked), and mark recording from
     * `clock`. Nothing stops a second start while recording.
     */
    method StartRecording(now: LocalTime, clock: real, spawned: bool)
      requires ValidTime(now)
      modifies this`nextVideoPath, this`nextPicturePath, this`recording, this`recordingStartTime
      ensures spawned ==> recording && recordingStartTime == clock
      ensures !spawned ==> recording == old(recording) && recordingStartTime == old(recordingStartTime)
      ensures nextVideoPath == VideoPath(picassoDir, now) && nextPicturePath == PicturePath(picassoDir, now)
    {
      UpdateNextPaths(now);
      if !spawned {
        return;
      }
      recording := true;
      recordingStartTime := clock;
    }

    /** One pass of `start_recording`'s wait: refresh the recording time label at `clock`. */
    method RecordingTick(clock: real)
      modifies this`recordingTime
      ensures Valid()
      ensures recordingTime == RecordingTime(old(recording), clock - old(recordingStartTime))
    {
      recordingTime := RecordingTime(recording, clock - recordingStartTime);
    }

    /** `stop_recording`: only clears the mark; the waiting `start_recording` finishes the recording. */
    method StopRecording()
      modifies this`recording
      ensures !recording
    {
      recording := false;
    }

    /**
     * The end of `start_recording` once recording stopped: if the drive
     * `/media/usb1` is there, copy the staging file to `next_video_path` as
     * it is now, that is the name from the latest `update_next_paths` (the
     * start of the recording, or a picture taken since); otherwise keep it
     * where it is. `stagedSize` is `os.path.getsize` of the staging file,
     * `None` when that raises. Returns the video's contents when copied.
     */
    method FinishRecording(usbPresent: bool, staged: seq<bv8>, stagedSize: Option<nat>, clock: real)
      returns (video: Option<seq<bv8>>)
      requires !recording
      modifies this`fileMoveStartTime, this`fileMoveTargetPath, this`fileMovedPercentage, this`movingFile
      ensures !usbPresent || stagedSize.None? ==>
        && video.None?
        && movingFile == old(movingFile) && fileMovedPercentage == old(fileMovedPercentage)
        && fileMoveTargetPath == old(fileMoveTargetPath) && fileMoveStartTime == old(fileMoveStartTime)
      ensures usbPresent && stagedSize.Some? ==> fileMoveTargetPath == nextVideoPath && fileMoveStartTime == clock
      ensures usbPresent && stagedSize == Some(0) && |staged| > 0 ==>
        video.None? && movingFile && fileMovedPercentage == 0.0
      ensures usbPresent && stagedSize.Some? && (stagedSize.value > 0 || |staged| == 0) ==>
        && video == Some(staged) && !movingFile
        && fileMovedPercentage == if |staged| == 0 then 0.0 else Percent(|staged|, stagedSize.value)
    {
      if !usbPresent {
        return None;
      }
      var dst, _, r := ShutilProgressTrack(staged, stagedSize, nextVideoPath, clock);
      video := if r.Success? then Some(dst) else None;
    }

    /** `set_resolution`: the index is stored even when it is out of range and `IndexError` is raised. */
    method SetResolution(index: int) returns (ok: bool)
      modifies this`previewResIndex, this`rescaledFrameResolution
      ensures previewResIndex == index
      ensures ok <==> -|PreviewResolutions| <= index < |PreviewResolutions|
      ensures ok ==> rescaledFrameResolution == PyIndex(PreviewResolutions, index).value
      ensures !ok ==> rescaledFrameResolution == old(rescaledFrameResolution)
    {
      previewResIndex := index;
      var choice := PyIndex(PreviewResolutions, index);
      if choice.None? {
        return false;
      }
      rescaledFrameResolution := choice.value;
      ok := true;
    }

    /** `inc_prev_res`: the next preview resolution, wrapping round; the index always lands in range. */
    method IncPrevRes()
      modifies this`previewResIndex, this`rescaledFrameResolution
      ensures previewResIndex == NextIndex(old(previewResIndex), |PreviewResolutions|)
      ensures 0 <= previewResIndex < |PreviewResolutions|
      ensures rescaledFrameResolution == PreviewResolutions[previewResIndex]
    {
      var _ := SetResolution(NextIndex(previewResIndex, |PreviewResolutions|));
    }

    /** `dec_prev_res`: the previous preview resolution, wrapping round; the index always lands in range. */
    method DecPrevRes()
      modifies this`previewResIndex, this`rescaledFrameResolution
      ensures previewResIndex == PrevIndex(old(previewResIndex), |PreviewResolutions|)
      ensures 0 <= previewResIndex < |PreviewResolutions|
      ensures rescaledFrameResolution == PreviewResolutions[previewResIndex]
    {
      var _ := SetResolution(PrevIndex(previewResIndex, |PreviewResolutions|));
    }

    /** The statistics toggle (the `s` key and `/debug_toggle`). */
    method ToggleStat()
      modifies this`stat
      ensures stat == !old(stat)
    {
      stat := !stat;
    }

    /**
     * One pass of `show` before the overlay: while a file is being moved the
     * placeholder `gradient` is shown, otherwise the camera's frame (`None`
     * ends the loop); the frame becomes the output and is rescaled to the
     * preview resolution. `cv2.resize` raises on an empty frame or a zero
     * resolution, which ends `show` with the output set and the old rescaled
     * frame kept. Returns whether the loop goes on.
     */
    method ShowFrame(read: Option<Frame>, gradient: Frame) returns (goOn: bool)
      modifies this`outputFrame, this`rescaledFrame
      ensures !movingFile && read.None? ==> !goOn && outputFrame == old(outputFrame) && rescaledFrame == old(rescaledFrame)
      ensures movingFile || read.Some? ==>
        var frame := if movingFile then gradient else read.value;
        && outputFrame == Some(frame)
        && (goOn <==> Resize(frame, rescaledFrameResolution.0, rescaledFrameResolution.1).Some?)
        && (goOn ==> rescaledFrame == Resize(frame, rescaledFrameResolution.0, rescaledFrameResolution.1))
      ensures !goOn ==> rescaledFrame == old(rescaledFrame)
    {
      var frame: Frame;
      if movingFile {
        frame := gradient;
      } else {
        if read.None? {
          return false;
        }
        frame := read.value;
      }
      outputFrame := Some(frame);
      var rescaled := Resize(frame, rescaledFrameResolution.0, rescaledFrameResolution.1);
      if rescaled.None? {
        return false;
      }
      rescaledFrame := rescaled;
      goOn := true;
    }

    /**
     * `draw_interface` at `clock`: the labels drawn on the preview, and the
     * recording time label refreshed when it is drawn.
     */
    method DrawInterface(clock: real) returns (labels: seq<Label>)
      requires Valid()
      modifies this`recordingTime
      ensures Valid()
      ensures labels == Labels(old(State()), clock)
      ensures old(rescaledFrame).Some? && old(recording) ==> recordingTime == RecordingTime(true, clock - old(recordingStartTime))
      ensures !(old(rescaledFrame).Some? && old(recording)) ==> recordingTime == old(recordingTime)
    {
      labels := Labels(State(), clock);
      if rescaledFrame.Some? && recording {
        recordingTime := RecordingTime(recording, clock - recordingStartTime);
      }
    }
  }

  /**
   * A picture taken while recording renames the recording: after a start at
   * `t1`, a picture at `t2`, a stop and a copy to the drive, the video is
   * written under the name of `t2`, not of `t1`.
   */
  method PictureRenamesRecording(w: WindowInterface, t1: LocalTime, t2: LocalTime, c1: real, c2: real, c3: real, staged: seq<bv8>)
    returns (video: Option<seq<bv8>>)
    requires ValidTime(t1) && ValidTime(t2)
    modifies w
    ensures video == Some(staged)
    ensures w.fileMoveTargetPath == VideoPath(w.picassoDir, t2)
    ensures t1 != t2 ==> w.fileMoveTargetPath != VideoPath(w.picassoDir, t1)
  {
    w.StartRecording(t1, c1, true);
    var _ := w.TakePicture(t2, c2);
    w.StopRecording();
    video := w.FinishRecording(true, staged, Some(|staged|), c3);
    if t1 != t2 && VideoPath(w.picassoDir, t2) == VideoPath(w.picassoDir, t1) {
      DatedPathInjective(w.picassoDir, "videos", "avi", t1, t2);
    }
  }
}
