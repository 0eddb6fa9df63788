/**
 * The configuration file of the recorder (a JSON object) and what happens to
 * it at start-up: missing default keys are filled in, unknown keys are
 * removed, and the file is rewritten only if something changed. Also the
 * "WxH" resolution string that every component parses.
 */
module Config {
  import opened Wrappers
  import opened Text

  /** A JSON value as `json.load` returns it. */
  datatype ConfigValue =
    | Null
    | Bool(b: bool)
    | Int(i: int)
    | Str(s: string)
    | Obj(fields: map<string, ConfigValue>)

  type ConfigMap = map<string, ConfigValue>

  /** `default_config`: eleven keys, with security on behind a non-empty passcode and disk mode by default. */
  function DefaultConfig(): (d: ConfigMap)
    ensures d.Keys == {"resolution", "fps", "encoding_format", "usb_mode", "usb_path", "other_path",
                       "preview_quality", "camera_device", "passcode", "secure", "virtual_device"}
    ensures d["secure"] == Bool(true) && d["usb_mode"] == Bool(false)
    ensures d["passcode"].Str? && |d["passcode"].s| > 0
  {
    map[
      "resolution" := Str("1280x720"),
      "fps" := Int(30),
      "encoding_format" := Str("libx264"),
      "usb_mode" := Bool(false),
      "usb_path" := Str("/media/usb1"),
      "other_path" := Str("~/"),
      "preview_quality" := Int(25),
      "camera_device" := Str("/dev/video0"),
      "passcode" := Str("1234"),
      "secure" := Bool(true),
      "virtual_device" := Obj(map["name" := Str("PicassoVirtCam"), "device" := Str("/dev/video40")])
    ]
  }

  /** The configuration after reconciliation: exactly the default keys, each keeping the loaded value if there was one. */
  function Reconciled(config: ConfigMap, defaults: ConfigMap): (r: ConfigMap)
    ensures r.Keys == defaults.Keys
  {
    map k | k in defaults :: if k in config then config[k] else defaults[k]
  }

  /** Whether reconciliation adds or removes at least one key (and so rewrites the file). */
  predicate NeedsUpdate(config: ConfigMap, defaults: ConfigMap) {
    defaults.Keys - config.Keys != {} || config.Keys - defaults.Keys != {}
  }

  /**
   * The start-up reconciliation loops: add every missing default key, collect
   * the unknown keys in a list, then delete them. `updated` is the
   * `update_config` flag.
   */
  method Reconcile(config: ConfigMap, defaults: ConfigMap) returns (result: ConfigMap, updated: bool)
    ensures result.Keys == defaults.Keys
    ensures forall k :: k in config && k in defaults ==> result[k] == config[k]
    ensures forall k :: k in defaults && k !in config ==> result[k] == defaults[k]
    ensures result == Reconciled(config, defaults)
    ensures updated <==> NeedsUpdate(config, defaults)
  {
    var added, addedAny := AddMissing(config, defaults);
    var delkeys := CollectUnknown(added, defaults);
    result := DeleteKeys(added, delkeys);
    updated := addedAny || |delkeys| > 0;
    if |delkeys| > 0 {
      assert delkeys[0] in config.Keys - defaults.Keys;
    }
    assert result.Keys == defaults.Keys;
  }

  /** `for key in default_config`: add each missing default key; `added` says whether one was missing. */
  method AddMissing(config: ConfigMap, defaults: ConfigMap) returns (result: ConfigMap, added: bool)
    ensures result.Keys == config.Keys + defaults.Keys
    ensures forall k :: k in result ==> result[k] == if k in config then config[k] else defaults[k]
    ensures added <==> defaults.Keys - config.Keys != {}
  {
    result := config;
    added := false;
    var pending := defaults.Keys;
    while pending != {}
      invariant pending <= defaults.Keys
      invariant result.Keys == config.Keys + (defaults.Keys - pending)
      invariant forall k :: k in result ==> result[k] == if k in config then config[k] else defaults[k]
      invariant added <==> (defaults.Keys - pending) - config.Keys != {}
      decreases pending
    {
      var key :| key in pending;
      pending := pending - {key};
      if key !in result {
        result := result[key := defaults[key]];
        added := true;
      }
    }
  }

  /** `for key in config`: list every key that is not a default key. */
  method CollectUnknown(config: ConfigMap, defaults: ConfigMap) returns (delkeys: seq<string>)
    ensures forall k :: k in delkeys <==> k in config && k !in defaults
  {
    delkeys := [];
    var unscanned := config.Keys;
    while unscanned != {}
      invariant unscanned <= config.Keys
      invariant forall k :: k in delkeys <==> k in config.Keys - unscanned && k !in defaults
      decreases unscanned
    {
      var key :| key in unscanned;
      unscanned := unscanned - {key};
      if key !in defaults {
        delkeys := delkeys + [key];
      }
    }
  }

  /** `for key in delkeys: del config[key]`. */
  method DeleteKeys(config: ConfigMap, delkeys: seq<string>) returns (result: ConfigMap)
    ensures result.Keys == config.Keys - set j | 0 <= j < |delkeys| :: delkeys[j]
    ensures forall k :: k in result ==> result[k] == config[k]
  {
    result := config;
    var i := 0;
    while i < |delkeys|
      invariant 0 <= i <= |delkeys|
      invariant result.Keys == config.Keys - set j | 0 <= j < i :: delkeys[j]
      invariant forall k :: k in result ==> result[k] == config[k]
    {
      result := result - {delkeys[i]};
      i := i + 1;
    }
  }

  /** Reconciling an already reconciled configuration changes nothing and does not rewrite the file. */
  lemma ReconcileIdempotent(config: ConfigMap, defaults: ConfigMap)
    ensures Reconciled(Reconciled(config, defaults), defaults) == Reconciled(config, defaults)
    ensures !NeedsUpdate(Reconciled(config, defaults), defaults)
  {
    var r := Reconciled(config, defaults);
    assert Reconciled(r, defaults).Keys == r.Keys;
  }

  /** A configuration file that has exactly the default keys is left as it is. */
  lemma ReconcileKeepsComplete(config: ConfigMap, defaults: ConfigMap)
    requires config.Keys == defaults.Keys
    ensures Reconciled(config, defaults) == config
    ensures !NeedsUpdate(config, defaults)
  {
  }

  /** A configuration that holds a non-default key always triggers the rewrite, which drops that key. */
  lemma UnknownKeyRemoved(config: ConfigMap, defaults: ConfigMap, key: string)
    requires key in config && key !in defaults
    ensures NeedsUpdate(config, defaults)
    ensures key !in Reconciled(config, defaults)
  {
    assert key in config.Keys - defaults.Keys;
  }

  /**
   * `int(s.split("x")[0])` and `int(s.split("x")[1])`: the width and height
   * of a "WxH" string. Fewer than two pieces raises `IndexError`, a piece that
   * is not a number raises `ValueError`; both are `None` here. Pieces after the
   * second are ignored, as indexing ignores them.
   */
  function ParseResolution(s: string): (r: Option<(nat, nat)>)
  {
    var parts := SplitOn(s, 'x');
    if |parts| < 2 then None
    else
      match (ParseNat(parts[0]), ParseNat(parts[1]))
      case (Some(w), Some(h)) => Some((w, h))
      case _ => None
  }

  /** The "WxH" form of a resolution. */
  function FormatResolution(w: nat, h: nat): string {
    NatToString(w) + "x" + NatToString(h)
  }

  /** Every resolution written as "WxH" parses back to itself. */
  lemma ParseFormatResolution(w: nat, h: nat)
    ensures ParseResolution(FormatResolution(w, h)) == Some((w, h))
  {
    NatToStringDigits(w);
    NatToStringDigits(h);
    DigitsHaveNoLetter(NatToString(w), 'x');
    DigitsHaveNoLetter(NatToString(h), 'x');
    SplitOnPrefix(NatToString(w), 'x', NatToString(h));
    SplitOnNone(NatToString(h), 'x');
    ParseNatToString(w);
    ParseNatToString(h);
  }

  /** "1280x720" is the "WxH" form of 1280 by 720. */
  lemma FormatDefaultResolution()
    ensures FormatResolution(1280, 720) == "1280x720"
  {
    assert NatToString(1280) == "1280";
    assert NatToString(720) == "720";
  }

  /** The default resolution is 1280 by 720. */
  lemma DefaultResolution()
    ensures DefaultConfig()["resolution"] == Str(FormatResolution(1280, 720))
    ensures ParseResolution(DefaultConfig()["resolution"].s) == Some((1280, 720))
  {
    assert DefaultConfig()["resolution"] == Str("1280x720");
    FormatDefaultResolution();
    ParseFormatResolution(1280, 720);
  }
}
