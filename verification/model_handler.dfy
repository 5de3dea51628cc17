/**
 * `get_transcription_model` of jassist/voice_diary/transcribe/model_handler.py:
 * the transcription model named by the config — the default model when it
 * is enabled or when no model is, otherwise the first enabled model.
 */
module ModelHandler {
  import opened Wrappers
  import opened Text
  import opened ConfigLoader

  /** `d.get(key)`: the value of the first member with that key. */
  function Get(ms: seq<Member>, key: string): (r: Option<Value>)
    ensures r.Some? <==> exists k :: 0 <= k < |ms| && ms[k].key == key
  {
    if ms == [] then None
    else if ms[0].key == key then Some(ms[0].value)
    else
      var r := Get(ms[1..], key);
      assert forall k :: 1 <= k < |ms| ==> ms[k] == ms[1..][k - 1];
      r
  }

  /** Python's truth value of a JSON value. */
  predicate Truthy(v: Value) {
    match v
    case Str(s) => s != []
    case Bool(b) => b
    case Num(n) => n != 0
    case Null => false
    case List(items) => items != []
    case Dict(members) => members != []
  }

  /** `opts.get("enabled", False)` is truthy. */
  predicate IsEnabled(opts: seq<Member>) {
    match Get(opts, "enabled")
    case None => false
    case Some(v) => Truthy(v)
  }

  /** Every model's options are a dictionary, as `opts.get` needs. */
  predicate WellFormedModels(models: seq<Member>) {
    forall k :: 0 <= k < |models| ==> models[k].value.Dict?
  }

  /** The names of the enabled models, in the config's order (line 22). */
  function EnabledModels(models: seq<Member>): (r: seq<string>)
    requires WellFormedModels(models)
    ensures |r| <= |models|
  {
    if models == [] then []
    else
      var rest := EnabledModels(models[1..]);
      if IsEnabled(models[0].value.members) then [models[0].key] + rest else rest
  }

  /** The config's "models" dictionary, empty when missing. */
  function ModelsOf(config: seq<Member>): seq<Member> {
    match Get(config, "models")
    case Some(Dict(ms)) => ms
    case _ => []
  }

  /** The config's "default_model", "whisper-1" when missing. */
  function DefaultModel(config: seq<Member>): (r: Value)
    ensures Get(config, "default_model").None? ==> r == Str("whisper-1")
  {
    match Get(config, "default_model")
    case Some(v) => v
    case None => Str("whisper-1")
  }

  /** What `get_transcription_model` needs of its config: "models", when
      present, is a dictionary of dictionaries. */
  predicate WellFormedConfig(config: seq<Member>) {
    match Get(config, "models")
    case None => true
    case Some(v) => v.Dict? && WellFormedModels(v.members)
  }

  /** `get_transcription_model(config)`: the default when no model is
      enabled or the default is; otherwise the first enabled model. Whenever
      some model is enabled, the chosen model is an enabled one. */
  function GetTranscriptionModel(config: seq<Member>): (r: Value)
    requires WellFormedConfig(config)
    ensures var enabled := EnabledModels(ModelsOf(config));
      && (enabled == [] ==> r == DefaultModel(config))
      && (enabled != [] ==> r.Str? && r.s in enabled)
      && (DefaultModel(config).Str? && DefaultModel(config).s in enabled ==> r == DefaultModel(config))
      && (r != DefaultModel(config) ==> enabled != [] && r == Str(enabled[0]))
  {
    var enabled := EnabledModels(ModelsOf(config));
    var default := DefaultModel(config);
    if enabled == [] then default
    else if default.Str? && default.s in enabled then default
    else Str(enabled[0])
  }

  // ---------------------------------------------------------------------
  // Properties.

  /** A model is enabled exactly when its options say so. */
  lemma {:induction false} EnabledModelsMembers(models: seq<Member>, name: string)
    requires WellFormedModels(models)
    ensures name in EnabledModels(models)
        <==> exists k :: 0 <= k < |models| && models[k].key == name && IsEnabled(models[k].value.members)
  {
    if models != [] {
      EnabledModelsMembers(models[1..], name);
      forall k | 1 <= k < |models| ensures models[k] == models[1..][k - 1] { }
    }
  }

  /** The enabled list keeps the config's order: enabling follows
      concatenation of the models. */
  lemma {:induction false} EnabledModelsAppend(a: seq<Member>, b: seq<Member>)
    requires WellFormedModels(a) && WellFormedModels(b)
    ensures WellFormedModels(a + b)
    ensures EnabledModels(a + b) == EnabledModels(a) + EnabledModels(b)
  {
    if a == [] {
      assert a + b == b;
    } else {
      assert (a + b)[0] == a[0] && (a + b)[1..] == a[1..] + b;
      EnabledModelsAppend(a[1..], b);
    }
  }

  /** Read after the string booleans are converted, a model whose "enabled"
      is the string "false" (in any case) is not enabled; read before, the
      non-empty string would count as enabled. */
  lemma ConvertedFalseDisables(opts: seq<Member>, s: string)
    requires Get(opts, "enabled") == Some(Str(s)) && Lower(s) == "false"
    ensures IsEnabled(opts)
    ensures !IsEnabled(ConvertedMembers(opts))
  {
    assert |s| == 5;
    ConvertedGet(opts, "enabled");
  }

  /** The conversion keeps keys, so `get` finds the converted value. */
  lemma {:induction false} ConvertedGet(ms: seq<Member>, key: string)
    ensures Get(ConvertedMembers(ms), key) == match Get(ms, key) case None => None case Some(v) => Some(ConvertedValue(v))
  {
    if ms != [] {
      ConvertedGet(ms[1..], key);
      assert ConvertedMembers(ms)[1..] == ConvertedMembers(ms[1..]);
    }
  }
}
