# Picasso recorder kernel in Dafny

Picasso turns a USB webcam into a virtual camera. It records videos, takes pictures, and serves a preview over HTTP. The repository has two variants:

- `picasso2.py`, the recorder service: a `CameraInterface` with a passcode-protected HTTP front.
- `picasso.py`, the older desktop variant: a `WindowInterface` that draws an overlay on a preview window.

This project models the deterministic kernel of both files. The outside world is observed only through parameters:

- whether device paths exist and open (one snapshot per scan round);
- what `udevadm` prints;
- file sizes and contents;
- the local time, the epoch and wall-clock seconds;
- the result of each child process.

Frames are records of width, height and channel order.

Modules:

- `Wrappers`: `Option`, `Result`.
- `Text`: the Python built-ins the kernel relies on, on ASCII strings. These are decimal `str(int)` and `int(str)`, two-digit padding, `str.split` on one character, and substring search.
- `Config`: the module-level reconciliation of the JSON configuration with the defaults, and parsing the `"WxH"` resolution.
- `Paths`: `os.path.join`, the `%B %d %I %M %S %p` conversions of `strftime` in the C locale, and the dated names of videos and pictures.
- `Frames`: `cv2.resize` and `cv2.cvtColor` on frame shapes, `on_frame`, and the frame sent by `send_virtual_frame`.
- `Devices`: one round of the device-recovery scan, the USB-camera filter, and the choice of `camera_path`.
- `Auth`: the HTTP middleware's passcode decision.
- `Overlay`: the `HH:MM:SS` recording time, the labels of `draw_interface`, the preview-resolution index arithmetic, and Python indexing.
- `Camera`: the class `CameraInterface` (`picasso2.py`). It covers the storage root, the failed-read counter and device recovery, start and stop of a recording, and the relocation record.
- `Window`: the class `WindowInterface` (`picasso.py`). It covers the storage directory, the chunked copy with progress, the picture flags, the recording state, the preview resolution, and the overlay.

The loops that never return unless the world cooperates are modelled for partial correctness. These are `wait_for_camera` and the destination poll of `metadata_track_filemove`. Each takes the observations of its rounds as a sequence and requires that one of them succeeds. The `Camera` and `Window` methods are proved against the pure functions of the other modules, and those functions carry the lemmas.

## Model

| member | source | states |
|---|---|---|
| Config.DefaultConfig | picasso2.py:43-57 | The defaults have exactly eleven keys, security on, a non-empty passcode and USB mode off. |
| Config.Reconcile | picasso2.py:75-90 | After reconciliation the keys are exactly the default keys. A key already present keeps its value and a missing key takes the default. The result is the reference map `Reconciled`. `update_config` is true iff a key was added or removed. |
| Config.Reconciled | picasso2.py:75-88 | The reconciled key set is the default key set. |
| Config.ReconcileIdempotent | picasso2.py:75-90 | Reconciling twice changes nothing, and a reconciled config never needs rewriting. |
| Config.ReconcileKeepsComplete | picasso2.py:75-90 | A config that already has exactly the default keys is left as it is, and the file is not rewritten. |
| Config.UnknownKeyRemoved | picasso2.py:81-88 | A key unknown to the defaults is removed and forces a rewrite. |
| Config.ParseFormatResolution | picasso2.py:164 | Splitting `"WxH"` on `x` and reading both numbers recovers the width and the height. |
| Config.DefaultResolution | picasso2.py:44 | The default resolution string is `1280x720` and parses to 1280 by 720. |
| Text.NatToString | picasso2.py:278 | `str(n)` is a non-empty string of decimal digits. |
| Text.ParseNat | picasso2.py:164 | `int` of a piece succeeds exactly on a non-empty string of decimal digits. |
| Text.ParseNatToString | picasso2.py:164 | `int(str(n)) == n`. |
| Text.NatToStringInjective | picasso2.py:278 | Distinct numbers have distinct decimal forms. |
| Text.SplitOn | picasso2.py:164 | `str.split` gives at least one piece, and no piece holds the separator. |
| Text.SplitOnJoin | picasso2.py:164 | The pieces of `str.split` join back to the input. |
| Text.SplitOnPrefix | picasso2.py:164 | Splitting `a + "x" + b`, with no `x` in `a`, gives `a` followed by the pieces of `b`. |
| Text.PadTwoRoundTrip | picasso2.py:287-288 | The two-digit field of a number below 100 reads back as that number. |
| Text.ContainsAt | picasso.py:93 | The byte-string `in` test holds iff the needle occurs at some position. |
| Paths.Hour12 | picasso2.py:288 | `%I` is in 1..12 and agrees with the hour modulo 12. |
| Paths.AmPm | picasso2.py:288 | `%p` is `AM` exactly before noon, and otherwise `PM`. |
| Paths.MonthNameInjective | picasso2.py:286 | Distinct months have distinct `%B` names. |
| Paths.StampShape | picasso2.py:287-289 | The name stamp has 15 characters: a two-digit day, `__`, and then a 12-hour hour between 01 and 12. |
| Paths.StampRoundTrip | picasso2.py:286-289 | The stamp determines the day, the 24-hour hour, the minute and the second. |
| Paths.MonthFolderInjective | picasso2.py:289 | The `<FullMonth><Year>` folder determines the month and the year. |
| Paths.PathJoinEnds | picasso2.py:283 | `os.path.join` ends with its last piece and, unless that piece is absolute, starts with the first. |
| Paths.PathJoinRelative | picasso2.py:283 | `os.path.join` of a relative piece adds a separator only when the base lacks one. |
| Paths.DatedPathParts | picasso2.py:282-304 | A dated name is the category directory, then the month folder, then `/<stamp>.<ext>`. |
| Paths.DatedPathTail | picasso2.py:282-304 | A dated name ends with `/<stamp>.<ext>`. |
| Paths.DatedPathStamp | picasso2.py:282-304 | With a three-letter extension, the name's last four characters are `.` and the extension, and the fifteen before them are the stamp. |
| Paths.VideoPathStamp | picasso.py:43-53 | `getNextVideoPath` ends in `.avi`, preceded by the stamp of its time. |
| Paths.PicturePathStamp | picasso.py:55-65 | `getNextPicturePath` ends in `.jpg`, preceded by the stamp of its time. |
| Paths.DatedPathInjective | picasso2.py:282-304 | Equal dated names under one root, category and extension mean equal local times, to the second. |
| Paths.VideoPictureDistinct | picasso.py:43-65 | A video name never equals a picture name. |
| Paths.TempPath | picasso2.py:270-279 | The staging name is `/tmp/picasso/temp_<digits>.avi`, and its digits read back as the start second. |
| Paths.TempPathInjective | picasso2.py:270-279 | Staging names of different start seconds differ. |
| Frames.Resize | picasso2.py:410-413 | `cv2.resize` fails on an empty source or a zero target. Otherwise it gives the target size and keeps the channel order. |
| Frames.ConvertColor | picasso2.py:414 | `cvtColor` fails on an empty frame. Otherwise it keeps the size and reverses the channel order. |
| Frames.BlackFrame | picasso2.py:164 | The placeholder is BGR of the configured size, and empty exactly when a side is zero. |
| Frames.OnFrame | picasso2.py:406-415 | An empty frame is replaced by the placeholder. The frame sent has the configured size and the reversed channel order. It fails only for an empty placeholder or a zero size. |
| Frames.OnFrameAlwaysSends | picasso2.py:406-415 | With a placeholder of positive configured size, every BGR frame reaches the virtual camera as RGB at that size. |
| Frames.ErrorFrame | picasso.py:168-170 | The error frame is a non-empty 1280 by 720 BGR frame. |
| Frames.SinkFrame | picasso.py:186-197 | The error frame is used when there is no output frame. Every frame sent has `VCAM_RESOLUTION` with the channel order reversed. With no output frame the result is a 1280 by 720 RGB frame. |
| Devices.ScanRound | picasso2.py:204-238 | If the configured path exists, only it is tried. Otherwise the result is the first of `/dev/video0..9` that exists and opens, or none, and equals `FirstUsable`. |
| Devices.FirstUsableFinds | picasso2.py:204-238 | A round finds a device iff the configured device is usable, or it is missing and some `/dev/video0..9` is usable. |
| Devices.VideoDeviceInjective | picasso2.py:222 | Distinct indices give distinct `/dev/video<i>` paths. |
| Devices.GetUsbCameras | picasso.py:83-97 | The result lists the USB camera indices below 10, in order, as device paths. |
| Devices.UsbIndicesSpec | picasso.py:87-96 | An index is listed iff it is below 10 and its device exists with `ID_USB_DRIVER` in its udev properties. The list is strictly ascending. |
| Devices.UsbCamerasExactly | picasso.py:83-97 | A path is returned iff it is one of `/dev/video0..9` and a USB camera. No path is returned twice. |
| Devices.CameraPath | picasso.py:99 | No camera when the first scan is empty. Otherwise the first path of the second scan, or `IndexError` when that is empty. |
| Devices.CameraPathStable | picasso.py:99 | With no change between the scans, the camera is the first USB camera, or none. |
| Auth.Authorize | picasso2.py:470-494 | A request is refused exactly when all of the following hold: security is on; the path is not `/stream`; the method is not `OPTIONS`; and the header is missing or empty, or the path is a protected route and the header differs from the passcode. |
| Auth.InsecureForwardsAll | picasso2.py:481 | With security off every request passes. |
| Auth.CorrectPasscodeForwarded | picasso2.py:480-494 | A non-empty correct passcode opens every route. |
| Auth.AnyHeaderOpensUnprotected | picasso2.py:481-488 | Any non-empty header opens routes outside start, stop and take_picture. |
| Auth.EmptyPasscodeLocksProtected | picasso2.py:481-492 | With an empty configured passcode the protected routes are always refused. |
| Overlay.ClockOf | picasso.py:287 | `%H:%M:%S` of a second of the day is eight characters and starts with a digit. |
| Overlay.ClockOfRoundTrip | picasso.py:287 | The `%H:%M:%S` text of a second of the day reads back as that second. |
| Overlay.RecordingTime | picasso.py:285-288 | The label has eight characters. It is `--:--:--` exactly when not recording. |
| Overlay.RecordingTimeRoundTrip | picasso.py:287 | While recording, the label reads back as the whole elapsed seconds modulo 86400, since hours wrap at 24. |
| Overlay.Labels | picasso.py:299-300 | Nothing is drawn without a preview frame. At most eight labels are drawn. |
| Overlay.LabelsShown | picasso.py:299-314 | A label is drawn iff `Shown` holds: welcome within 5 s of start-up; recording indicator, and the time of the seconds since the recording started, while recording; each picture label within 3 s of the last picture with its flag set; statistics when toggled; saving banner and progress iff a file is moving. |
| Overlay.BothPictureLabels | picasso.py:306-309 | Once both picture flags are set, a fresh picture shows both labels at once. |
| Overlay.NextIndex | picasso.py:323 | `(i + 1) % n` is always in `[0, n)`. |
| Overlay.PrevIndex | picasso.py:328 | `(i - 1) % n` is always in `[0, n)`. |
| Overlay.NextPrevInverse | picasso.py:321-329 | Stepping forward then back, or back then forward, restores an index in range. |
| Overlay.PyIndex | picasso.py:319 | Python indexing succeeds iff `-n <= i < n`. A negative index counts from the end. |
| Camera.FolderRoot | picasso2.py:100-136 | The service exits iff USB mode is on without a USB path. The root is `<usb_path>/picasso` when the USB path exists, `<other_path>/picasso` in disk mode, and absent in USB mode without the drive. Every root ends in `picasso`. |
| Camera.DiskModeHasRoot | picasso2.py:120-136 | Disk mode always yields a root. |
| Camera.NextCount | picasso2.py:389-399 | A good read clears the counter. A failed read makes it `(count + 1) % 10`. It stays below 10. |
| Camera.FailRunMod | picasso2.py:389-399 | After `n` failed reads in a row from `c`, the counter is `(c + n) % 10`. |
| Camera.WaitsEveryTenthFailure | picasso2.py:394-397 | From zero, the counter is back at zero exactly after a multiple of ten failures. |
| Camera.CameraInterface.constructor | picasso2.py:138-170 | Initial state: not recording, nothing staged, no process id, counter zero, relocation record `(False, 0, 0)`, and a BGR placeholder of the configured size. |
| Camera.CameraInterface.WaitForCamera | picasso2.py:199-238 | The configured device becomes the first round's find. All earlier rounds found nothing. Nothing else changes. |
| Camera.CameraInterface.ReceiveStep | picasso2.py:388-401 | The counter becomes `NextCount`. A good read is kept and sent through `on_frame`. A failed read sends the placeholder. The tenth failure waits for a camera and sends nothing, and the device becomes the first one found by the first round that finds one. The counter stays below 10. |
| Camera.CameraInterface.StartRecording | picasso2.py:306-332 | Recording is marked with its ISO start time, whatever the previous state. In USB mode the encoder writes `/tmp/picasso/temp_<epoch>.avi`, which is also the staging path. Otherwise it writes the dated video and nothing is staged. Without a root it raises `TypeError`. |
| Camera.CameraInterface.TrackFileMove | picasso2.py:337-361 | The record starts as `(False, size, 0)`. The poll stops at the first poll that sees the full size. The record ends as `(False, size, size)`, so `complete` is never set. A missing source raises. |
| Camera.CameraInterface.StopRecording | picasso2.py:367-376 | Recording is cleared. The encoder is signalled only for a non-zero process id, and the id is kept. In USB mode a staged recording is moved to a freshly named dated video and the staging path is cleared. Each failure leaves the staging path. |
| Camera.CameraInterface.Snapshot | picasso2.py:446-451 | A picture is the dated picture name and the current frame, or the placeholder. Without a root it fails with `NoRoot`; otherwise it fails, with `EmptyImage`, exactly when the frame to be written has no pixels, where `cv2.imwrite` raises. A saved picture is never empty. |
| Window.FirstUsbEntry | picasso.py:30-33 | Some entry is chosen iff one contains `usb` in lower case. The chosen entry is the first such. |
| Window.PicassoDir | picasso.py:29-37 | The directory is `/media/<first usb entry>`, or `~/picasso` when there is none. |
| Window.Lower | picasso.py:31 | ASCII lower-casing, character by character. |
| Window.WindowInterface.constructor | picasso.py:102-133 | Initial flags are all off, the time label is `--:--:--`, the preview is 800 by 600, and the next paths are named from the start-up time. |
| Window.WindowInterface.UpdateNextPaths | picasso.py:172-174 | The next video and picture names are those of the given local time. No other field changes. |
| Window.WindowInterface.ShutilProgressTrack | picasso.py:142-166 | The destination equals the source. One percentage is reported per chunk of at most 256·4096 bytes, each `copied / total * 100` with `copied` capped at the source length. `_moving_file` is false afterwards. A failed size check changes nothing. A zero measured size with a non-empty source raises after one chunk and leaves `_moving_file` true. Only the move fields change. |
| Window.WindowInterface.TakePicture | picasso.py:258-271 | With a non-empty frame, the picture is saved with reversed channels, the saved flag is raised and the label timer restarts. Without a frame, the error flag is raised and the label timer restarts. With an empty frame, `cvtColor` raises: nothing is saved and no flag or timer changes. No flag is ever lowered. Both next names are refreshed in every case, and nothing else changes. |
| Window.WindowInterface.StartRecording | picasso.py:205-224 | The next files are named. When the encoder starts, recording is marked from the given clock, with no guard against a second start; when `subprocess.Popen` raises, the recording mark and start time stay as they were. Nothing else changes. |
| Window.WindowInterface.RecordingTick | picasso.py:226-228 | The time label becomes `RecordingTime` of the seconds since the recording started: `--:--:--` when not recording. Nothing else changes. |
| Window.WindowInterface.StopRecording | picasso.py:241-242 | Only the recording mark is cleared; nothing else changes. |
| Window.WindowInterface.FinishRecording | picasso.py:229-239 | With `/media/usb1` present and the size readable, the staging file is copied to `next_video_path` as it is after recording, the name of the latest `update_next_paths`. A zero size with a non-empty file raises and leaves `_moving_file` set; otherwise the copy completes and `_moving_file` ends false. Without the drive, or when the size check raises, nothing moves. Only the move fields change. |
| Window.PictureRenamesRecording | picasso.py:172-174 | A recording started at `t1`, with a picture taken at `t2`, is copied under the name of `t2`, which differs from the name of `t1` when the times differ. |
| Window.WindowInterface.SetResolution | picasso.py:316-319 | The index is stored even when out of range. The resolution changes iff Python indexing succeeds. Nothing else changes. |
| Window.WindowInterface.IncPrevRes | picasso.py:321-324 | The index becomes `(i + 1) % n`, always in range, and the resolution is the one it selects. Nothing else changes. |
| Window.WindowInterface.DecPrevRes | picasso.py:326-329 | The index becomes `(i - 1) % n`, always in range, and the resolution is the one it selects. Nothing else changes. |
| Window.WindowInterface.ToggleStat | picasso.py:374-375 | The statistics flag flips; nothing else changes. |
| Window.WindowInterface.ShowFrame | picasso.py:345-357 | The gradient is shown while a file moves, otherwise the camera frame. A failed read ends the loop. The output frame is rescaled to the preview resolution. When `cv2.resize` raises, the output is set, the old rescaled frame is kept and the loop ends. Only the two frames change. |
| Window.WindowInterface.DrawInterface | picasso.py:299-314 | The labels drawn are `Labels` of the state before drawing. The time label is refreshed only when it is drawn, and it is the only field that changes. |

## Left out

- I/O is not modelled: OpenCV capture and pixel work, PIL text drawing, pyvirtualcam send and pacing, ffmpeg spawning, `pkill`, `modprobe` and `v4l2-ctl`. Where an operation's outcome depends on one of them, it appears as a parameter: a frame shape, a process id, or a success flag. The final `pkill` of `start_recording` has no observable effect on the model's state and is omitted.
- The JSON file read and write of the configuration, and the exits when it cannot be parsed or written.
- psutil and statvfs statistics and their GB/MB rounding (`get_metadata`, `update_storage_info`, `stat_overlay` text), because they are OS queries and floating point.
- The `/stream` route's own passcode check and the multipart streaming generators with their frame throttling.
- FastAPI routing, CORS and the coloured console logger.
- Threads and asyncio orchestration. The copy thread of `metadata_track_filemove` is replaced by the sizes its poll observes. The interleaving of `draw_interface` with a running copy is not modelled.
- `picasso_api.py` and the web front end, because they have no kernel logic.
- The GUI loop's window display and key reading. The key handlers appear only as the methods they call.
- Config.ParseResolution: has no contract of its own. Its properties are in `ParseFormatResolution` and `DefaultResolution`.
- Text.ParseNat: accepts only ASCII digits. Python's `int` also accepts a sign, surrounding whitespace, underscores and other Unicode digits.
- Window.Lower: lower-cases ASCII letters only; Python's `str.lower` also folds other scripts.
- Camera.CameraInterface.constructor: takes the resolution already parsed and the root already chosen. The source crashes at start-up on an unparsable resolution or a missing USB path. The `_black_frame` text is not modelled.
- Camera.CameraInterface.WaitForCamera: requires that some scan round finds a device, because the source loops for ever otherwise.
- Camera.CameraInterface.ReceiveStep: models one pass. The receive loop is the repetition of this step.
- Camera.CameraInterface.TrackFileMove: requires that some poll sees the full size, because the source polls for ever otherwise.
- `metadata["end_time"]` is never written by the source, so it is not a field.
- Window.WindowInterface.FinishRecording: the `pkill` that stops the encoder is left out. The staging file is `~/.picasso_temp.avi` and is passed in as bytes.
- Window.WindowInterface.StartRecording: the removal of an old staging file (`os.remove` when it exists) is left out, because the file system is not modelled.
- Overlay.Labels: one clock reading decides every label. The source reads `time.time()` separately for the welcome label, the PICTURE SAVED label, the PICTURE SAVE ERROR label and the recording time, so its labels can disagree at the 5 s and 3 s edges, and its time label can be one second later. `Overlay.LabelsShown`, `Overlay.BothPictureLabels` and `Window.WindowInterface.DrawInterface` share this simplification.
- Window.WindowInterface.UpdateNextPaths: both next names are built from one local time. The source reads `time.localtime()` separately for the video and the picture name, so the two stamps can differ by a second across a clock tick. The Window constructor and `Window.PictureRenamesRecording` share this simplification.
- Window.WindowInterface.ShutilProgressTrack: does not model a failed open of either file. Percentages are exact reals, not binary floats.
- Dictionary key order after reconciliation is not modelled. Maps are unordered.
