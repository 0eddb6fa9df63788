/**
 * The preview overlay of the desktop variant: which labels `draw_interface`
 * puts on the preview frame, the elapsed-time text of a recording, and the
 * arithmetic that cycles through the preview resolutions.
 */
module Overlay {
  import opened Wrappers
  import opened Text

  /** The `HH:MM:SS` layout of three two-character fields. */
  function ClockFields(h: string, m: string, sec: string): string {
    h + ":" + m + ":" + sec
  }

  lemma ClockFieldsAt(h: string, m: string, sec: string)
    requires |h| == 2 && |m| == 2 && |sec| == 2
    ensures var s := ClockFields(h, m, sec);
      && |s| == 8 && s[0..2] == h && s[2] == ':' && s[3..5] == m && s[5] == ':' && s[6..8] == sec
  {
  }

  /** Splitting the seconds of a day into hours, minutes and seconds. */
  lemma DayParts(d: int)
    requires 0 <= d < 86400
    ensures 0 <= d / 3600 < 24 && 0 <= d % 3600 / 60 < 60 && 0 <= d % 60 < 60
    ensures d == d / 3600 * 3600 + d % 3600 / 60 * 60 + d % 60
  {
    var r := d % 3600;
    assert d == d / 3600 * 3600 + r;
    assert r == r / 60 * 60 + r % 60;
    assert r % 60 == d % 60;
  }

  /** The seconds into the day of a time `secs` seconds after the epoch, as `gmtime` counts them. */
  function DaySeconds(secs: int): (d: nat)
    ensures d < 86400
  {
    secs % 86400
  }

  /** `HH:MM:SS` of the `d`-th second of a day. */
  function ClockOf(d: nat): (s: string)
    requires d < 86400
    ensures |s| == 8 && IsDigit(s[0])
  {
    DayParts(d);
    ClockFieldsAt(PadTwo(d / 3600), PadTwo(d % 3600 / 60), PadTwo(d % 60));
    ClockFields(PadTwo(d / 3600), PadTwo(d % 3600 / 60), PadTwo(d % 60))
  }

  /**
   * The recording time label: `--:--:--` when not recording, otherwise
   * `time.strftime("%H:%M:%S", time.gmtime(elapsed))`, the whole seconds
   * elapsed (`gmtime` rounds a fractional time down, also below zero) with
   * the hours wrapping at 24.
   */
  function RecordingTime(recording: bool, elapsed: real): (s: string)
    ensures |s| == 8
    ensures !recording <==> s == "--:--:--"
  {
    if recording then ClockOf(DaySeconds(elapsed.Floor)) else "--:--:--"
  }

  /** Reads `HH:MM:SS` back as seconds of the day. */
  function ParseClock(s: string): Option<nat> {
    if |s| == 8 && s[2] == ':' && s[5] == ':' && AllDigits(s[0..2]) && AllDigits(s[3..5]) && AllDigits(s[6..8])
    then Some(TwoDigitsValue(s[0..2]) * 3600 + TwoDigitsValue(s[3..5]) * 60 + TwoDigitsValue(s[6..8]))
    else None
  }

  /** A clock reads back as its second of the day. */
  lemma ClockOfRoundTrip(d: nat)
    requires d < 86400
    ensures ParseClock(ClockOf(d)) == Some(d)
  {
    DayParts(d);
    var h, m, sec := d / 3600, d % 3600 / 60, d % 60;
    PadTwoRoundTrip(h);
    PadTwoRoundTrip(m);
    PadTwoRoundTrip(sec);
    ClockFieldsAt(PadTwo(h), PadTwo(m), PadTwo(sec));
  }

  /** While recording, the label shows exactly the elapsed whole seconds modulo one day. */
  lemma RecordingTimeRoundTrip(elapsed: real)
    ensures ParseClock(RecordingTime(true, elapsed)) == Some(elapsed.Floor % 86400)
  {
    ClockOfRoundTrip(DaySeconds(elapsed.Floor));
  }

  /** The things `draw_interface` draws, in its drawing order. */
  datatype Label =
    | Welcome
    | RecordingIndicator
    | ElapsedTime(elapsed: real)   // drawn as `RecordingTime(true, elapsed)`
    | PictureSaved
    | PictureSaveError
    | Stats
    | SavingBanner
    | Progress(percent: real)

  /** The fields of the window that `draw_interface` reads; times are seconds of the wall clock. */
  datatype OverlayState = OverlayState(
    hasFrame: bool,
    uptime: real,
    recording: bool,
    recordingStart: real,
    picLabelTime: real,
    picShowSaved: bool,
    picShowError: bool,
    stat: bool,
    movingFile: bool,
    movedPercent: real)

  /** Labels present exactly when `shown`. */
  function When(shown: bool, labels: seq<Label>): seq<Label> {
    if shown then labels else []
  }

  /**
   * `draw_interface`, in its drawing order: nothing without a preview frame;
   * then the welcome banner, the recording indicator and time, the two
   * picture labels, the statistics, and the saving banner with its progress.
   */
  function Labels(s: OverlayState, now: real): (labels: seq<Label>)
    ensures !s.hasFrame ==> labels == []
    ensures |labels| <= 8
  {
    if !s.hasFrame then []
    else
      When(now - s.uptime < 5.0, [Welcome])
      + When(s.recording, [RecordingIndicator, ElapsedTime(now - s.recordingStart)])
      + When(s.picShowSaved && now - s.picLabelTime < 3.0, [PictureSaved])
      + When(s.picShowError && now - s.picLabelTime < 3.0, [PictureSaveError])
      + When(s.stat, [Stats])
      + When(s.movingFile, [SavingBanner, Progress(s.movedPercent)])
  }

  /**
   * When a label is on screen: the welcome banner in the first five seconds
   * after start-up; the recording indicator and the elapsed time while
   * recording; each picture label for three seconds after a picture was
   * taken, if its flag is set; the statistics when toggled on; the saving
   * banner and the progress while a recording is being copied. Nothing
   * without a preview frame.
   */
  predicate Shown(s: OverlayState, now: real, l: Label) {
    s.hasFrame &&
    match l
    case Welcome => now - s.uptime < 5.0
    case RecordingIndicator => s.recording
    case ElapsedTime(elapsed) => s.recording && elapsed == now - s.recordingStart
    case PictureSaved => s.picShowSaved && now - s.picLabelTime < 3.0
    case PictureSaveError => s.picShowError && now - s.picLabelTime < 3.0
    case Stats => s.stat
    case SavingBanner => s.movingFile
    case Progress(percent) => s.movingFile && percent == s.movedPercent
  }

  /** `draw_interface` draws exactly the labels that are shown. */
  lemma LabelsShown(s: OverlayState, now: real)
    ensures forall l :: l in Labels(s, now) <==> Shown(s, now, l)
  {
    if s.hasFrame {
      var w := When(now - s.uptime < 5.0, [Welcome]);
      var r := When(s.recording, [RecordingIndicator, ElapsedTime(now - s.recordingStart)]);
      var ps := When(s.picShowSaved && now - s.picLabelTime < 3.0, [PictureSaved]);
      var pe := When(s.picShowError && now - s.picLabelTime < 3.0, [PictureSaveError]);
      var st := When(s.stat, [Stats]);
      var mv := When(s.movingFile, [SavingBanner, Progress(s.movedPercent)]);
      var labels := Labels(s, now);
      assert labels == w + r + ps + pe + st + mv;
      forall l ensures l in labels <==> Shown(s, now, l) {
        assert l in labels <==> l in w || l in r || l in ps || l in pe || l in st || l in mv;
      }
    }
  }

  /** Once both picture flags are set (they are never cleared), a fresh picture shows both labels at once. */
  lemma BothPictureLabels(s: OverlayState, now: real)
    requires s.hasFrame && s.picShowSaved && s.picShowError && now - s.picLabelTime < 3.0
    ensures PictureSaved in Labels(s, now) && PictureSaveError in Labels(s, now)
  {
    LabelsShown(s, now);
  }

  /** `PREVIEW_RESOLUTIONS`. */
  const PreviewResolutions: seq<(nat, nat)> := [(640, 360)]

  /** `(index + 1) % n`, with Python's `%` (the result takes the divisor's sign). */
  function NextIndex(index: int, n: nat): (r: int)
    requires n > 0
    ensures 0 <= r < n
  {
    (index + 1) % n
  }

  /** `(index - 1) % n`. */
  function PrevIndex(index: int, n: nat): (r: int)
    requires n > 0
    ensures 0 <= r < n
  {
    (index - 1) % n
  }

  lemma MulAtLeast(n: int, k: int)
    requires n > 0 && k >= 1
    ensures n * k >= n
  {
    assert n * k == n * (k - 1) + n;
  }

  /** Euclidean division has one quotient and remainder. */
  lemma ModUnique(x: int, n: int, q: int, r: int)
    requires n > 0 && 0 <= r < n && x == n * q + r
    ensures x % n == r
  {
    var d := q - x / n;
    assert n * d == x % n - r;
    if d >= 1 {
      MulAtLeast(n, d);
      assert false;
    } else if d <= -1 {
      MulAtLeast(n, -d);
      assert false;
    }
  }

  /** Stepping forward and back, in either order, returns to an index in range. */
  lemma NextPrevInverse(index: int, n: nat)
    requires 0 <= index < n
    ensures PrevIndex(NextIndex(index, n), n) == index
    ensures NextIndex(PrevIndex(index, n), n) == index
  {
    ModUnique(index, n, 0, index);
    if index + 1 == n {
      ModUnique(index + 1, n, 1, 0);
      ModUnique(-1, n, -1, n - 1);
    } else {
      ModUnique(index + 1, n, 0, index + 1);
    }
    if index == 0 {
      ModUnique(-1, n, -1, n - 1);
      ModUnique(n, n, 1, 0);
    } else {
      ModUnique(index - 1, n, 0, index - 1);
    }
  }

  /** Python's `seq[index]`: negative indices count from the end; outside `-n..n-1` it raises `IndexError`. */
  function PyIndex<T>(s: seq<T>, index: int): (r: Option<T>)
    ensures r.Some? <==> -|s| <= index < |s|
    ensures r.Some? && index >= 0 ==> r.value == s[index]
    ensures r.Some? && index < 0 ==> r.value == s[|s| + index]
  {
    if -|s| <= index < |s| then Some(s[index % |s|]) else None
  }
}
