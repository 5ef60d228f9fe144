/**
 * The configuration builder of js/config/imagen.js: `getConfig` reads the
 * user's settings from browser storage (a string-to-string map here) and
 * returns the request configuration, substituting a default for every
 * setting that is missing or falsy under JavaScript's `||`.
 */
module ImagenConfig {
  import opened Wrappers
  import opened JsText
  import opened ApiTypes

  /** The contents of `localStorage`. */
  type Storage = map<string, string>

  /** `localStorage.getItem(key)`: the stored string, or null. */
  function GetItem(storage: Storage, key: string): (v: Option<string>)
    ensures v.Some? <==> key in storage
    ensures v.Some? ==> v.value == storage[key]
  {
    if key in storage then Some(storage[key]) else None
  }

  const ModelName := "gemini-2.0-flash-exp-image-generation"

  const DefaultSystemInstruction := "You are a helpful assistant that can understand and generate both text and images. When asked to create or generate an image, you will do so while providing relevant explanations. For other queries, you will respond with appropriate text."

  /** The `thresholds` table: its own keys are exactly the strings "0" to "3". */
  const Thresholds: map<string, string> := map["0" := BlockNone, "1" := BlockOnlyHigh, "2" := BlockMediumAndAbove, "3" := BlockLowAndAbove]

  /** Each safety category with the storage key its threshold level is read from, in request order. */
  const SafetyCategoryKeys: seq<(string, string)> := [
    (HarmCategoryHarassment, "harassmentThreshold"),
    (HarmCategoryDangerousContent, "dangerousContentThreshold"),
    (HarmCategorySexuallyExplicit, "sexuallyExplicitThreshold"),
    (HarmCategoryHateSpeech, "hateSpeechThreshold"),
    (HarmCategoryCivicIntegrity, "civicIntegrityThreshold")
  ]

  /** The storage keys of the five generation settings. */
  const SettingKeys: set<string> := {"temperature", "top_p", "top_k", "maxOutputTokens", "systemInstructions"}

  /** Every storage key `getConfig` reads: the five settings and the five threshold keys. */
  const ConsumedKeys: set<string> := SettingKeys + set i | 0 <= i < |SafetyCategoryKeys| :: SafetyCategoryKeys[i].1

  datatype GenerationConfig = GenerationConfig(
    temperature: real,
    topP: real,
    topK: int,
    maxOutputTokens: int,
    candidateCount: int,
    stopSequences: seq<string>,
    responseModalities: seq<string>,
    responseMimeType: string)

  datatype SystemInstruction = SystemInstruction(parts: seq<TextPart>)

  /** The `tools` object; a function declaration is represented by its name, and none is ever declared. */
  datatype Tools = Tools(functionDeclarations: seq<string>)

  datatype Config = Config(
    model: string,
    generationConfig: GenerationConfig,
    systemInstruction: SystemInstruction,
    tools: Tools,
    safetySettings: seq<SafetySetting>)

  /**
   * `thresholds[level] || "HARM_BLOCK_THRESHOLD_UNSPECIFIED"`, looking only at
   * the table's own keys: "0" to "3" give the four blocking levels, and
   * anything else, a missing setting included, gives the unspecified sentinel.
   */
  function ThresholdFor(stored: Option<string>): string {
    var key := ToJsString(stored);
    if key in Thresholds && Thresholds[key] != "" then Thresholds[key] else ThresholdUnspecified
  }

  /** The threshold lookup in both directions: each level "0" to "3" and only it gives its threshold; everything else is unspecified. */
  lemma ThresholdForSpec(stored: Option<string>)
    ensures var r := ThresholdFor(stored);
      && (r == BlockNone <==> stored == Some("0"))
      && (r == BlockOnlyHigh <==> stored == Some("1"))
      && (r == BlockMediumAndAbove <==> stored == Some("2"))
      && (r == BlockLowAndAbove <==> stored == Some("3"))
      && (r == ThresholdUnspecified <==> stored !in {Some("0"), Some("1"), Some("2"), Some("3")})
  {
  }

  /** `parseInt(localStorage.getItem(key)) || default`: NaN and 0 are falsy. */
  function IntSetting(storage: Storage, key: string, default: int): (r: int)
    ensures default != 0 ==> r != 0
    ensures r == default || ParseInt(ToJsString(GetItem(storage, key))) == Num(r)
    ensures var p := ParseInt(ToJsString(GetItem(storage, key)));
      p.Num? && p.value != 0 ==> r == p.value
  {
    match ParseInt(ToJsString(GetItem(storage, key)))
    case Num(v) => if v != 0 then v else default
    case NaN => default
  }

  /**
   * `parseFloat(localStorage.getItem(key)) || default`, where `parseFloat` is
   * the engine's float parser, given as a parameter: NaN and 0 are falsy.
   */
  function FloatSetting(storage: Storage, key: string, parseFloat: string -> Numeric<real>, default: real): (r: real)
    ensures default != 0.0 ==> r != 0.0
    ensures r == default || parseFloat(ToJsString(GetItem(storage, key))) == Num(r)
    ensures var p := parseFloat(ToJsString(GetItem(storage, key)));
      p.Num? && p.value != 0.0 ==> r == p.value
  {
    match parseFloat(ToJsString(GetItem(storage, key)))
    case Num(v) => if v != 0.0 then v else default
    case NaN => default
  }

  /** `localStorage.getItem('systemInstructions') || <default text>`: null and "" are falsy. */
  function SystemInstructionText(storage: Storage): (r: string)
    ensures r == DefaultSystemInstruction || GetItem(storage, "systemInstructions") == Some(r)
  {
    match GetItem(storage, "systemInstructions")
    case Some(s) => if s != "" then s else DefaultSystemInstruction
    case None => DefaultSystemInstruction
  }

  /**
   * `getConfig()`: the model and the generation parameters with their
   * defaults, a single-part system instruction, no tools, and one safety
   * setting per category in a fixed order, each threshold looked up from
   * that category's own storage key.
   */
  function GetConfig(storage: Storage, parseFloat: string -> Numeric<real>): (c: Config)
    ensures c.model == ModelName
    ensures c.generationConfig.candidateCount == 1
    ensures c.generationConfig.stopSequences == []
    ensures c.generationConfig.responseModalities == ["Text", "Image"]
    ensures c.generationConfig.responseMimeType == "text/plain"
    ensures c.tools.functionDeclarations == []
    ensures c.generationConfig.temperature != 0.0 && c.generationConfig.topP != 0.0
    ensures c.generationConfig.topK != 0 && c.generationConfig.maxOutputTokens != 0
    ensures |c.systemInstruction.parts| == 1
    ensures |c.safetySettings| == |SafetyCategoryKeys|
    ensures forall i :: 0 <= i < |SafetyCategoryKeys| ==>
      c.safetySettings[i] == SafetySetting(SafetyCategoryKeys[i].0, ThresholdFor(GetItem(storage, SafetyCategoryKeys[i].1)))
  {
    Config(
      ModelName,
      GenerationConfig(
        FloatSetting(storage, "temperature", parseFloat, 1.0),
        FloatSetting(storage, "top_p", parseFloat, 0.95),
        IntSetting(storage, "top_k", 40),
        IntSetting(storage, "maxOutputTokens", 8192),
        1,
        [],
        ["Text", "Image"],
        "text/plain"),
      SystemInstruction([TextPart(SystemInstructionText(storage))]),
      Tools([]),
      SafetySettingsFrom(storage, SafetyCategoryKeys))
  }

  /**
   * The `safetySettings` list: for each (category, storage key) pair, in
   * order, the category with the threshold looked up from that key alone.
   */
  function SafetySettingsFrom(storage: Storage, table: seq<(string, string)>): (ss: seq<SafetySetting>)
    ensures |ss| == |table|
    ensures forall i :: 0 <= i < |table| ==>
      ss[i] == SafetySetting(table[i].0, ThresholdFor(GetItem(storage, table[i].1)))
  {
    if |table| == 0 then []
    else [SafetySetting(table[0].0, ThresholdFor(GetItem(storage, table[0].1)))] + SafetySettingsFrom(storage, table[1..])
  }

  // ----- what the defaults mean for the stored text -----

  /** A missing integer setting, or one whose text does not start a number, gives the default. */
  lemma IntSettingDefaults(storage: Storage, key: string, default: int)
    requires key !in storage || (var t := TrimStart(storage[key]); |t| == 0 || (!IsDecimalDigit(t[0]) && t[0] != '+' && t[0] != '-'))
    ensures IntSetting(storage, key, default) == default
  {
    ParseIntNonNumeric(ToJsString(GetItem(storage, key)));
  }

  /** A stored integer, possibly padded or followed by a unit, is read back; a stored zero gives the default. */
  lemma IntSettingStoredInteger(storage: Storage, key: string, default: int, w: string, n: int, rest: string)
    requires AllWhiteSpace(w)
    requires |rest| == 0 || !IsDecimalDigit(rest[0])
    requires n == 0 ==> |rest| == 0 || (rest[0] != 'x' && rest[0] != 'X')
    requires key in storage && storage[key] == w + IntToString(n) + rest
    ensures IntSetting(storage, key, default) == if n != 0 then n else default
  {
    ParseIntReadsInteger(w, n, rest);
  }

  /** `top_k`: absent gives 40, and a stored integer n gives n unless it is 0, which gives 40 (other non-numeric text: `IntSettingDefaults`). */
  lemma TopKSetting(storage: Storage, parseFloat: string -> Numeric<real>, n: int)
    ensures "top_k" !in storage ==> GetConfig(storage, parseFloat).generationConfig.topK == 40
    ensures "top_k" in storage && storage["top_k"] == IntToString(n) ==>
      GetConfig(storage, parseFloat).generationConfig.topK == if n != 0 then n else 40
  {
    if "top_k" !in storage {
      IntSettingDefaults(storage, "top_k", 40);
    }
    if "top_k" in storage && storage["top_k"] == IntToString(n) {
      assert storage["top_k"] == "" + IntToString(n) + "";
      IntSettingStoredInteger(storage, "top_k", 40, "", n, "");
    }
  }

  /** `maxOutputTokens`: absent gives 8192, and a stored integer n gives n unless it is 0, which gives 8192 (other non-numeric text: `IntSettingDefaults`). */
  lemma MaxOutputTokensSetting(storage: Storage, parseFloat: string -> Numeric<real>, n: int)
    ensures "maxOutputTokens" !in storage ==> GetConfig(storage, parseFloat).generationConfig.maxOutputTokens == 8192
    ensures "maxOutputTokens" in storage && storage["maxOutputTokens"] == IntToString(n) ==>
      GetConfig(storage, parseFloat).generationConfig.maxOutputTokens == if n != 0 then n else 8192
  {
    if "maxOutputTokens" !in storage {
      IntSettingDefaults(storage, "maxOutputTokens", 8192);
    }
    if "maxOutputTokens" in storage && storage["maxOutputTokens"] == IntToString(n) {
      assert storage["maxOutputTokens"] == "" + IntToString(n) + "";
      IntSettingStoredInteger(storage, "maxOutputTokens", 8192, "", n, "");
    }
  }

  /**
   * `temperature` and `top_p` keep the parsed value when it is a non-zero
   * number and fall back to 1.0 and 0.95 when it is NaN or zero; a missing
   * setting is parsed from the text "null", which `parseFloat` reads as NaN.
   */
  lemma FloatSettingsFallback(storage: Storage, parseFloat: string -> Numeric<real>)
    ensures var t := parseFloat(ToJsString(GetItem(storage, "temperature")));
      GetConfig(storage, parseFloat).generationConfig.temperature == if t.Num? && t.value != 0.0 then t.value else 1.0
    ensures var p := parseFloat(ToJsString(GetItem(storage, "top_p")));
      GetConfig(storage, parseFloat).generationConfig.topP == if p.Num? && p.value != 0.0 then p.value else 0.95
    ensures parseFloat("null") == NaN && "temperature" !in storage ==> GetConfig(storage, parseFloat).generationConfig.temperature == 1.0
    ensures parseFloat("null") == NaN && "top_p" !in storage ==> GetConfig(storage, parseFloat).generationConfig.topP == 0.95
  {
  }

  /** The system instruction is the stored text when it is non-empty, and the default text otherwise. */
  lemma SystemInstructionFallback(storage: Storage, parseFloat: string -> Numeric<real>)
    ensures var text := GetConfig(storage, parseFloat).systemInstruction.parts[0].text;
      && ("systemInstructions" in storage && storage["systemInstructions"] != "" ==> text == storage["systemInstructions"])
      && ("systemInstructions" !in storage || storage["systemInstructions"] == "" ==> text == DefaultSystemInstruction)
  {
  }

  /** The five safety settings come in the order harassment, dangerous content, sexually explicit, hate speech, civic integrity. */
  lemma SafetyCategoryOrder(storage: Storage, parseFloat: string -> Numeric<real>)
    ensures var ss := GetConfig(storage, parseFloat).safetySettings;
      && |ss| == 5
      && ss[0].category == HarmCategoryHarassment
      && ss[1].category == HarmCategoryDangerousContent
      && ss[2].category == HarmCategorySexuallyExplicit
      && ss[3].category == HarmCategoryHateSpeech
      && ss[4].category == HarmCategoryCivicIntegrity
  {
    var ss := GetConfig(storage, parseFloat).safetySettings;
    assert ss[0].category == SafetyCategoryKeys[0].0;
    assert ss[1].category == SafetyCategoryKeys[1].0;
    assert ss[2].category == SafetyCategoryKeys[2].0;
    assert ss[3].category == SafetyCategoryKeys[3].0;
    assert ss[4].category == SafetyCategoryKeys[4].0;
  }

  /** Each safety setting depends only on its own category's storage key. */
  lemma SafetySettingReadsOwnKey(s1: Storage, s2: Storage, pf1: string -> Numeric<real>, pf2: string -> Numeric<real>, i: nat)
    requires i < |SafetyCategoryKeys|
    requires GetItem(s1, SafetyCategoryKeys[i].1) == GetItem(s2, SafetyCategoryKeys[i].1)
    ensures GetConfig(s1, pf1).safetySettings[i] == GetConfig(s2, pf2).safetySettings[i]
  {
  }

  /**
   * `getConfig` is a function of the ten keys it reads: two storages that
   * agree on them give the same configuration, whatever else they hold.
   */
  lemma GetConfigReadsOnlyConsumedKeys(s1: Storage, s2: Storage, parseFloat: string -> Numeric<real>)
    requires forall k :: k in ConsumedKeys ==> GetItem(s1, k) == GetItem(s2, k)
    ensures GetConfig(s1, parseFloat) == GetConfig(s2, parseFloat)
  {
    assert GetItem(s1, "temperature") == GetItem(s2, "temperature");
    assert GetItem(s1, "top_p") == GetItem(s2, "top_p");
    assert GetItem(s1, "top_k") == GetItem(s2, "top_k");
    assert GetItem(s1, "maxOutputTokens") == GetItem(s2, "maxOutputTokens");
    assert GetItem(s1, "systemInstructions") == GetItem(s2, "systemInstructions");
    forall i | 0 <= i < |SafetyCategoryKeys|
      ensures GetItem(s1, SafetyCategoryKeys[i].1) == GetItem(s2, SafetyCategoryKeys[i].1)
    {
      assert SafetyCategoryKeys[i].1 in ConsumedKeys;
    }
    SafetySettingsAgree(s1, s2, SafetyCategoryKeys);
  }

  /** Two storages that agree on a table's keys give the same safety settings for it. */
  lemma SafetySettingsAgree(s1: Storage, s2: Storage, table: seq<(string, string)>)
    requires forall i :: 0 <= i < |table| ==> GetItem(s1, table[i].1) == GetItem(s2, table[i].1)
    ensures SafetySettingsFrom(s1, table) == SafetySettingsFrom(s2, table)
  {
    var ss1, ss2 := SafetySettingsFrom(s1, table), SafetySettingsFrom(s2, table);
    assert forall i :: 0 <= i < |table| ==> ss1[i] == ss2[i];
  }

  // ----- the threshold lookup as written -----

  /** The names JavaScript finds on every plain object through `Object.prototype`. */
  const ObjectPrototypeMembers: set<string> := {
    "constructor", "hasOwnProperty", "isPrototypeOf", "propertyIsEnumerable",
    "toLocaleString", "toString", "valueOf", "__proto__",
    "__defineGetter__", "__defineSetter__", "__lookupGetter__", "__lookupSetter__"
  }

  /** The value of a property access on the `thresholds` object literal. */
  datatype PropertyValue = Undefined | OwnString(s: string) | InheritedMember(name: string)

  /** `thresholds[key]` as JavaScript evaluates it: own keys first, then the members inherited from `Object.prototype`. */
  function ThresholdsProperty(key: string): PropertyValue {
    if key in Thresholds then OwnString(Thresholds[key])
    else if key in ObjectPrototypeMembers then InheritedMember(key)
    else Undefined
  }

  /**
   * `thresholds[localStorage.getItem(k)] || "HARM_BLOCK_THRESHOLD_UNSPECIFIED"`
   * exactly as written: an inherited member (a function, or the prototype
   * object) is truthy, so it is kept instead of the sentinel.
   */
  function ThresholdAsWritten(stored: Option<string>): (r: PropertyValue)
    ensures r.Undefined? == false
    ensures stored.Some? && stored.value in ObjectPrototypeMembers ==> r == InheritedMember(stored.value)
  {
    match ThresholdsProperty(ToJsString(stored))
    case OwnString(s) => if s != "" then OwnString(s) else OwnString(ThresholdUnspecified)
    case InheritedMember(name) => InheritedMember(name)
    case Undefined => OwnString(ThresholdUnspecified)
  }

  /** A stored level "toString" yields a function, not a threshold string, so the request's safety setting loses its threshold. */
  lemma ThresholdAsWrittenLeaksPrototype()
    ensures ThresholdAsWritten(Some("toString")) == InheritedMember("toString")
    ensures ThresholdAsWritten(Some("toString")) != OwnString(ThresholdFor(Some("toString")))
  {
    ThresholdForSpec(Some("toString"));
  }

  /** Outside the twelve inherited names the lookup as written and `ThresholdFor` agree. */
  lemma ThresholdAsWrittenAgrees(stored: Option<string>)
    requires stored.None? || stored.value !in ObjectPrototypeMembers
    ensures ThresholdAsWritten(stored) == OwnString(ThresholdFor(stored))
  {
  }
}
