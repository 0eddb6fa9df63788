/**
 * Names of the files the recorder writes. Recordings and pictures go to
 * `<root>/<videos|pictures>/<FullMonthName><Year>/<DD>__<II>_<MM>_<SS>_<AM|PM>.<avi|jpg>`,
 * built from the local time with strftime's `%B %d %I %M %S %p` in the C
 * locale (ISO C11 section 7.27.3.5) and the year as a plain decimal number.
 * Staged recordings go to `/tmp/picasso/temp_<epoch seconds>.avi`.
 */
module Paths {
  import opened Wrappers
  import opened Text

  /** The fields of `time.localtime()` that the names use. */
  datatype LocalTime = LocalTime(year: nat, month: nat, day: nat, hour: nat, minute: nat, second: nat)

  /** The ranges `struct_time` guarantees (seconds up to 61, as Python allows). */
  predicate ValidTime(t: LocalTime) {
    1 <= t.month <= 12 && 1 <= t.day <= 31 && t.hour < 24 && t.minute < 60 && t.second <= 61
  }

  /** `%B` in the C locale. */
  function MonthName(m: nat): (name: string)
    requires 1 <= m <= 12
    ensures |name| >= 3
  {
    match m
    case 1 => "January"
    case 2 => "February"
    case 3 => "March"
    case 4 => "April"
    case 5 => "May"
    case 6 => "June"
    case 7 => "July"
    case 8 => "August"
    case 9 => "September"
    case 10 => "October"
    case 11 => "November"
    case 12 => "December"
  }

  /** Month names hold no digit and do not start with a separator. */
  lemma MonthNameLetters(m: nat)
    requires 1 <= m <= 12
    ensures forall i :: 0 <= i < |MonthName(m)| ==> !IsDigit(MonthName(m)[i]) && MonthName(m)[i] != '/'
  {
  }

  lemma MonthNameInjective(a: nat, b: nat)
    requires 1 <= a <= 12 && 1 <= b <= 12
    requires MonthName(a) == MonthName(b)
    ensures a == b
  {
  }

  /** `%I`: the hour on the 12-hour clock, 12 for midnight and noon. */
  function Hour12(h: nat): (r: nat)
    requires h < 24
    ensures 1 <= r <= 12
    ensures r % 12 == h % 12
  {
    if h % 12 == 0 then 12 else h % 12
  }

  /** `%p` in the C locale. */
  function AmPm(h: nat): (r: string)
    requires h < 24
    ensures r == "AM" <==> h < 12
    ensures r == "AM" || r == "PM"
  {
    if h < 12 then "AM" else "PM"
  }

  /** The `<DD>__<II>_<MM>_<SS>_<PP>` layout of five two-character fields. */
  function StampFields(d: string, h: string, m: string, sec: string, p: string): string {
    d + "__" + h + "_" + m + "_" + sec + "_" + p
  }

  lemma StampFieldsAt(d: string, h: string, m: string, sec: string, p: string)
    requires |d| == 2 && |h| == 2 && |m| == 2 && |sec| == 2 && |p| == 2
    ensures var x := StampFields(d, h, m, sec, p);
      && |x| == 15 && x[0..2] == d && x[2..4] == "__" && x[4..6] == h && x[6] == '_'
      && x[7..9] == m && x[9] == '_' && x[10..12] == sec && x[12] == '_' && x[13..15] == p
  {
  }

  /** `<DD>__<II>_<MM>_<SS>_<AM|PM>`: the day, then the time of day. */
  function Stamp(t: LocalTime): string
    requires ValidTime(t)
  {
    StampFields(PadTwo(t.day), PadTwo(Hour12(t.hour)), PadTwo(t.minute), PadTwo(t.second), AmPm(t.hour))
  }

  /** `<FullMonthName><Year>`: the month folder. */
  function MonthFolder(t: LocalTime): string
    requires ValidTime(t)
  {
    MonthName(t.month) + NatToString(t.year)
  }

  /** `os.path.join(a, b)` for two pieces. */
  function PathJoin(a: string, b: string): string {
    if |b| > 0 && b[0] == '/' then b
    else if a == "" || a[|a| - 1] == '/' then a + b
    else a + "/" + b
  }

  /** The joined path ends with `b` and, unless `b` is absolute, starts with `a`. */
  lemma PathJoinEnds(a: string, b: string)
    ensures var r := PathJoin(a, b); |r| >= |b| && r[|r| - |b|..] == b
    ensures var r := PathJoin(a, b); !(|b| > 0 && b[0] == '/') ==> |r| >= |a| && r[..|a|] == a
  {
    var r := PathJoin(a, b);
    if !(|b| > 0 && b[0] == '/') {
      var sep := if a == "" || a[|a| - 1] == '/' then "" else "/";
      assert r == a + sep + b;
      assert r[|r| - |b|..] == b;
    }
  }

  /** What `os.path.join(a, b)` puts in front of a relative `b`. */
  function DirPrefix(a: string): string {
    if a == "" || a[|a| - 1] == '/' then a else a + "/"
  }

  lemma PathJoinRelative(a: string, b: string)
    requires |b| > 0 && b[0] != '/'
    ensures PathJoin(a, b) == DirPrefix(a) + b
  {
  }

  /** The dated name of a file of one category (`videos`, `pictures`) and extension under `root`. */
  function DatedPath(root: string, category: string, t: LocalTime, ext: string): string
    requires ValidTime(t)
  {
    PathJoin(PathJoin(root, category), MonthFolder(t) + "/" + Stamp(t) + "." + ext)
  }

  /** A dated name ends with `/<stamp>.<ext>`. */
  lemma DatedPathTail(root: string, category: string, t: LocalTime, ext: string)
    requires ValidTime(t)
    ensures var r := DatedPath(root, category, t, ext);
      |r| >= 17 + |ext| && r[|r| - (17 + |ext|)..] == "/" + Stamp(t) + "." + ext
  {
    StampShape(t);
    JoinTail(PathJoin(root, category), MonthFolder(t), Stamp(t), ext);
  }

  /** Joining `<folder>/<stamp>.<ext>` onto any base ends the path with `/<stamp>.<ext>`. */
  lemma JoinTail(base: string, folder: string, stamp: string, ext: string)
    requires |stamp| == 15
    ensures var r := PathJoin(base, folder + "/" + stamp + "." + ext);
      |r| >= 17 + |ext| && r[|r| - (17 + |ext|)..] == "/" + stamp + "." + ext
  {
    var tail := "/" + stamp + "." + ext;
    var rel := folder + "/" + stamp + "." + ext;
    assert rel == folder + tail;
    PathJoinEnds(base, rel);
    SuffixOfSuffix(PathJoin(base, rel), folder, tail);
  }

  /** A string that ends with `x + y` ends with `y`. */
  lemma SuffixOfSuffix(r: string, x: string, y: string)
    requires |r| >= |x + y| && r[|r| - |x + y|..] == x + y
    ensures |r| >= |y| && r[|r| - |y|..] == y
  {
    assert r[|r| - |y|..] == (x + y)[|x|..];
  }

  /** The fields of a name ending with `/<stamp>.<ext>` for a stamp of fifteen characters. */
  lemma TailFields(r: string, stamp: string, ext: string)
    requires |stamp| == 15 && |r| >= 17 + |ext| && r[|r| - (17 + |ext|)..] == "/" + stamp + "." + ext
    ensures r[|r| - |ext| - 16..|r| - |ext| - 1] == stamp && r[|r| - |ext| - 1] == '.' && r[|r| - |ext|..] == ext
  {
    var tail := "/" + stamp + "." + ext;
    assert r[|r| - |ext| - 16..|r| - |ext| - 1] == tail[1..16];
    assert r[|r| - |ext| - 1] == tail[16];
    assert r[|r| - |ext|..] == tail[17..];
  }

  /** A dated name with a three-letter extension: the extension is last, with the stamp of the time before it. */
  lemma DatedPathStamp(root: string, category: string, t: LocalTime, ext: string)
    requires ValidTime(t) && |ext| == 3
    ensures var r := DatedPath(root, category, t, ext);
      |r| >= 20 && r[|r| - 19..|r| - 4] == Stamp(t) && r[|r| - 4] == '.' && r[|r| - 3..] == ext
  {
    StampShape(t);
    DatedPathTail(root, category, t, ext);
    TailFields(DatedPath(root, category, t, ext), Stamp(t), ext);
  }

  /** `getNextVideoPath`. */
  function VideoPath(root: string, t: LocalTime): string
    requires ValidTime(t)
  {
    DatedPath(root, "videos", t, "avi")
  }

  /** `getNextPicturePath`. */
  function PicturePath(root: string, t: LocalTime): string
    requires ValidTime(t)
  {
    DatedPath(root, "pictures", t, "jpg")
  }

  /** A video name ends in `.avi`, with the stamp of its time before it. */
  lemma VideoPathStamp(root: string, t: LocalTime)
    requires ValidTime(t)
    ensures var r := VideoPath(root, t); |r| >= 20 && r[|r| - 19..|r| - 4] == Stamp(t) && r[|r| - 4] == '.' && r[|r| - 3..] == "avi"
  {
    DatedPathStamp(root, "videos", t, "avi");
  }

  /** A picture name ends in `.jpg`, with the stamp of its time before it. */
  lemma PicturePathStamp(root: string, t: LocalTime)
    requires ValidTime(t)
    ensures var r := PicturePath(root, t); |r| >= 20 && r[|r| - 19..|r| - 4] == Stamp(t) && r[|r| - 4] == '.' && r[|r| - 3..] == "jpg"
  {
    DatedPathStamp(root, "pictures", t, "jpg");
  }

  /** `_getTempPath`: the staging file of a recording begun at `epoch` whole seconds. */
  function TempPath(epoch: nat): (r: string)
    ensures |r| > 22 && r[..18] == "/tmp/picasso/temp_" && r[|r| - 4..] == ".avi"
    ensures ParseNat(r[18..|r| - 4]) == Some(epoch)
  {
    var digits := NatToString(epoch);
    var r := PathJoin("/tmp/picasso", "temp_" + digits + ".avi");
    assert r == "/tmp/picasso/temp_" + digits + ".avi";
    assert r[18..|r| - 4] == digits;
    ParseNatToString(epoch);
    r
  }

  /** Reads a stamp back: day, hour on the 24-hour clock, minute and second. */
  function ParseStamp(s: string): Option<(nat, nat, nat, nat)> {
    if |s| == 15 && s[2..4] == "__" && s[6] == '_' && s[9] == '_' && s[12] == '_'
       && AllDigits(s[0..2]) && AllDigits(s[4..6]) && AllDigits(s[7..9]) && AllDigits(s[10..12])
       && (s[13..15] == "AM" || s[13..15] == "PM")
    then
      var h12 := TwoDigitsValue(s[4..6]);
      if 1 <= h12 <= 12 then
        var h := if s[13..15] == "AM" then h12 % 12 else h12 % 12 + 12;
        Some((TwoDigitsValue(s[0..2]), h, TwoDigitsValue(s[7..9]), TwoDigitsValue(s[10..12])))
      else None
    else None
  }

  /** The stamp is fifteen characters with the day first and a 12-hour field in 01..12. */
  lemma StampShape(t: LocalTime)
    requires ValidTime(t)
    ensures |Stamp(t)| == 15
    ensures Stamp(t)[0..2] == PadTwo(t.day) && Stamp(t)[2..4] == "__"
    ensures 1 <= TwoDigitsValue(Stamp(t)[4..6]) <= 12
  {
    StampFieldsAt(PadTwo(t.day), PadTwo(Hour12(t.hour)), PadTwo(t.minute), PadTwo(t.second), AmPm(t.hour));
    PadTwoRoundTrip(Hour12(t.hour));
  }

  /** Parsing five well-formed fields laid out as a stamp. */
  lemma ParseStampFields(d: string, h: string, m: string, sec: string, p: string)
    requires |d| == 2 && |h| == 2 && |m| == 2 && |sec| == 2 && (p == "AM" || p == "PM")
    requires AllDigits(d) && AllDigits(h) && AllDigits(m) && AllDigits(sec)
    requires 1 <= TwoDigitsValue(h) <= 12
    ensures var h24 := if p == "AM" then TwoDigitsValue(h) % 12 else TwoDigitsValue(h) % 12 + 12;
      ParseStamp(StampFields(d, h, m, sec, p)) == Some((TwoDigitsValue(d), h24, TwoDigitsValue(m), TwoDigitsValue(sec)))
  {
    StampFieldsAt(d, h, m, sec, p);
  }

  /** The 12-hour clock and AM/PM determine the hour. */
  lemma HourBack(h: nat)
    requires h < 24
    ensures (if AmPm(h) == "AM" then Hour12(h) % 12 else Hour12(h) % 12 + 12) == h
  {
  }

  /** The stamp keeps the whole time of day: the 12-hour field and AM/PM give back the hour. */
  lemma StampRoundTrip(t: LocalTime)
    requires ValidTime(t)
    ensures ParseStamp(Stamp(t)) == Some((t.day, t.hour, t.minute, t.second))
  {
    PadTwoRoundTrip(t.day);
    PadTwoRoundTrip(Hour12(t.hour));
    PadTwoRoundTrip(t.minute);
    PadTwoRoundTrip(t.second);
    HourBack(t.hour);
    ParseStampFields(PadTwo(t.day), PadTwo(Hour12(t.hour)), PadTwo(t.minute), PadTwo(t.second), AmPm(t.hour));
  }

  /** Cancelling equal-length tails of two equal concatenations. */
  lemma ConcatCancel(a1: string, s1: string, a2: string, s2: string)
    requires a1 + s1 == a2 + s2 && |s1| == |s2|
    ensures a1 == a2 && s1 == s2
  {
    assert a1 == (a1 + s1)[..|a1|];
    assert a2 == (a2 + s2)[..|a2|];
    assert s1 == (a1 + s1)[|a1|..];
    assert s2 == (a2 + s2)[|a2|..];
  }

  /** The character at `k` of two equal joins, read from each side. */
  lemma JoinedAt(w1: string, d1: string, w2: string, d2: string, k: nat)
    requires k == |w1| && k < |w2| && |d1| > 0 && w1 + d1 == w2 + d2
    ensures d1[0] == w2[k]
  {
    assert (w1 + d1)[k] == d1[0];
    assert (w2 + d2)[k] == w2[k];
  }

  /** A word free of digits followed by a non-empty number splits in one place only. */
  lemma WordNumberSplit(w1: string, d1: string, w2: string, d2: string)
    requires forall i :: 0 <= i < |w1| ==> !IsDigit(w1[i])
    requires forall i :: 0 <= i < |w2| ==> !IsDigit(w2[i])
    requires |d1| > 0 && AllDigits(d1) && |d2| > 0 && AllDigits(d2)
    requires w1 + d1 == w2 + d2
    ensures w1 == w2 && d1 == d2
  {
    if |w1| < |w2| {
      JoinedAt(w1, d1, w2, d2, |w1|);
      assert false;
    } else if |w2| < |w1| {
      JoinedAt(w2, d2, w1, d1, |w2|);
      assert false;
    }
    ConcatCancel(w1, d1, w2, d2);
  }

  /** Month folders name one month of one year each. */
  lemma MonthFolderInjective(t1: LocalTime, t2: LocalTime)
    requires ValidTime(t1) && ValidTime(t2)
    requires MonthFolder(t1) == MonthFolder(t2)
    ensures t1.month == t2.month && t1.year == t2.year
  {
    NatToStringDigits(t1.year);
    NatToStringDigits(t2.year);
    MonthNameLetters(t1.month);
    MonthNameLetters(t2.month);
    WordNumberSplit(MonthName(t1.month), NatToString(t1.year), MonthName(t2.month), NatToString(t2.year));
    MonthNameInjective(t1.month, t2.month);
    NatToStringInjective(t1.year, t2.year);
  }

  /** A dated name is the category directory, the month folder, and a fixed-length tail holding the stamp. */
  lemma DatedPathParts(root: string, category: string, t: LocalTime, ext: string)
    requires ValidTime(t)
    ensures DatedPath(root, category, t, ext) == DirPrefix(PathJoin(root, category)) + MonthFolder(t) + ("/" + Stamp(t) + "." + ext)
    ensures |"/" + Stamp(t) + "." + ext| == 17 + |ext|
  {
    MonthNameLetters(t.month);
    assert MonthFolder(t)[0] == MonthName(t.month)[0];
    RelativeLayout(PathJoin(root, category), MonthFolder(t), Stamp(t), ext);
    StampShape(t);
  }

  /** Joining `<folder>/<stamp>.<ext>`, whose folder does not start with a separator, onto a base. */
  lemma RelativeLayout(base: string, folder: string, stamp: string, ext: string)
    requires |folder| > 0 && folder[0] != '/'
    ensures PathJoin(base, folder + "/" + stamp + "." + ext) == DirPrefix(base) + folder + ("/" + stamp + "." + ext)
  {
    var rel := folder + "/" + stamp + "." + ext;
    assert rel[0] == folder[0];
    PathJoinRelative(base, rel);
    assert rel == folder + ("/" + stamp + "." + ext);
  }

  /**
   * Dated names are unambiguous: two times that give the same file name under
   * the same root, category and extension agree to the second. (Two recordings
   * begun in the same second get the same name.)
   */
  lemma DatedPathInjective(root: string, category: string, ext: string, t1: LocalTime, t2: LocalTime)
    requires ValidTime(t1) && ValidTime(t2)
    requires DatedPath(root, category, t1, ext) == DatedPath(root, category, t2, ext)
    ensures t1 == t2
  {
    DatedPathParts(root, category, t1, ext);
    DatedPathParts(root, category, t2, ext);
    StampShape(t1);
    StampShape(t2);
    SameLayout(DirPrefix(PathJoin(root, category)), MonthFolder(t1), Stamp(t1), MonthFolder(t2), Stamp(t2), ext);
    MonthFolderInjective(t1, t2);
    StampRoundTrip(t1);
    StampRoundTrip(t2);
  }

  /** Two names laid out as `<pre><folder>/<stamp>.<ext>` with stamps of one length agree in folder and stamp. */
  lemma SameLayout(pre: string, f1: string, s1: string, f2: string, s2: string, ext: string)
    requires |s1| == |s2|
    requires pre + f1 + ("/" + s1 + "." + ext) == pre + f2 + ("/" + s2 + "." + ext)
    ensures f1 == f2 && s1 == s2
  {
    var tail1 := "/" + s1 + "." + ext;
    var tail2 := "/" + s2 + "." + ext;
    ConcatCancel(pre + f1, tail1, pre + f2, tail2);
    ConcatCancel(pre, f1, pre, f2);
    assert s1 == tail1[1..1 + |s1|];
    assert s2 == tail2[1..1 + |s2|];
  }

  /** A video name and a picture name never coincide: their extensions differ. */
  lemma VideoPictureDistinct(root: string, t1: LocalTime, t2: LocalTime)
    requires ValidTime(t1) && ValidTime(t2)
    ensures VideoPath(root, t1) != PicturePath(root, t2)
  {
    VideoPathStamp(root, t1);
    PicturePathStamp(root, t2);
    var v := VideoPath(root, t1);
    var p := PicturePath(root, t2);
    assert v[|v| - 1] == "avi"[2];
    assert p[|p| - 1] == "jpg"[2];
  }

  /** Staging names are unambiguous in the start second; two recordings started in the same second share one. */
  lemma TempPathInjective(a: nat, b: nat)
    requires TempPath(a) == TempPath(b)
    ensures a == b
  {
  }
}
