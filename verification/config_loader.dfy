/**
 * `convert_string_booleans` of jassist/voice_diary/transcribe/config_loader.py:
 * after the transcription config is read from JSON, every string value
 * "true" or "false" (in any case) of a dictionary, at any depth of nested
 * dictionaries, becomes the boolean it names.
 */
module ConfigLoader {
  import opened Text

  /** A JSON value as `json.load` returns it. */
  datatype Value =
    | Str(s: string)
    | Bool(b: bool)
    | Num(n: int)
    | Null
    | List(items: seq<Value>)
    | Dict(members: seq<Member>)

  /** One key of a dictionary with its value, in insertion order. */
  datatype Member = Member(key: string, value: Value)

  /** What one value of a dictionary becomes. */
  function ConvertedValue(v: Value): (r: Value)
    decreases v, 1
  {
    match v
    case Dict(ms) => Dict(ConvertedMembers(ms))
    case Str(s) =>
      if Lower(s) == "true" then Bool(true)
      else if Lower(s) == "false" then Bool(false)
      else v
    case _ => v
  }

  /** What a dictionary becomes: the same keys, in the same order. */
  function ConvertedMembers(ms: seq<Member>): (r: seq<Member>)
    ensures |r| == |ms|
    ensures forall k :: 0 <= k < |ms| ==> r[k].key == ms[k].key
    decreases ms, 0
  {
    if ms == [] then []
    else [Member(ms[0].key, ConvertedValue(ms[0].value))] + ConvertedMembers(ms[1..])
  }

  lemma ConvertedMembersAt(ms: seq<Member>, k: nat)
    requires k < |ms|
    ensures ConvertedMembers(ms)[k] == Member(ms[k].key, ConvertedValue(ms[k].value))
  {
    if k > 0 {
      ConvertedMembersAt(ms[1..], k - 1);
    }
  }

  /** `convert_string_booleans(config_dict)`: each member in turn, recursing
      into nested dictionaries and replacing the two boolean strings. */
  method ConvertStringBooleans(config: seq<Member>) returns (converted: seq<Member>)
    ensures converted == ConvertedMembers(config)
    decreases config
  {
    converted := config;
    for i := 0 to |config|
      invariant |converted| == |config|
      invariant forall k :: 0 <= k < i ==> converted[k] == ConvertedMembers(config)[k]
      invariant forall k :: i <= k < |config| ==> converted[k] == config[k]
    {
      ConvertedMembersAt(config, i);
      var member := converted[i];
      match member.value {
        case Dict(inner) =>
          assert member == config[i];
          var nested := ConvertStringBooleans(inner);
          converted := converted[i := Member(member.key, Dict(nested))];
        case Str(s) =>
          var lowered := Lower(s);
          if lowered == "true" {
            converted := converted[i := Member(member.key, Bool(true))];
          } else if lowered == "false" {
            converted := converted[i := Member(member.key, Bool(false))];
          }
        case _ =>
      }
    }
  }

  // ---------------------------------------------------------------------
  // Properties.

  /** No dictionary, at any depth, holds a boolean string any more. */
  predicate NoBooleanStrings(v: Value)
    decreases v, 1
  {
    match v
    case Str(s) => Lower(s) != "true" && Lower(s) != "false"
    case Dict(ms) => MembersWithoutBooleanStrings(ms)
    case _ => true
  }

  predicate MembersWithoutBooleanStrings(ms: seq<Member>)
    decreases ms, 0
  {
    forall k :: 0 <= k < |ms| ==> NoBooleanStrings(ms[k].value)
  }

  /** Each value becomes what its source line says: a boolean string its
      boolean, a nested dictionary its conversion, anything else itself —
      lists included, whose elements are never looked at. */
  lemma ConvertedValueCases(v: Value)
    ensures v.Str? && Lower(v.s) == "true" ==> ConvertedValue(v) == Bool(true)
    ensures v.Str? && Lower(v.s) == "false" ==> ConvertedValue(v) == Bool(false)
    ensures v.Str? && Lower(v.s) != "true" && Lower(v.s) != "false" ==> ConvertedValue(v) == v
    ensures !v.Str? && !v.Dict? ==> ConvertedValue(v) == v
    ensures v.Dict? ==> ConvertedValue(v).Dict? && |ConvertedValue(v).members| == |v.members|
  {
  }

  /** After the conversion no dictionary, at any depth, holds a boolean string. */
  lemma {:induction false} ConversionRemovesBooleanStrings(v: Value)
    ensures NoBooleanStrings(ConvertedValue(v))
    decreases v, 1
  {
    if v.Dict? {
      MembersConverted(v.members);
    }
  }

  lemma {:induction false} MembersConverted(ms: seq<Member>)
    ensures MembersWithoutBooleanStrings(ConvertedMembers(ms))
    decreases ms, 0
  {
    var r := ConvertedMembers(ms);
    forall k | 0 <= k < |ms| ensures NoBooleanStrings(r[k].value) {
      ConvertedMembersAt(ms, k);
      ConversionRemovesBooleanStrings(ms[k].value);
    }
  }

  /** Converting twice changes nothing more than converting once. */
  lemma {:induction false} ConversionIdempotent(v: Value)
    ensures ConvertedValue(ConvertedValue(v)) == ConvertedValue(v)
    decreases v, 1
  {
    if v.Dict? {
      MembersIdempotent(v.members);
    }
  }

  lemma {:induction false} MembersIdempotent(ms: seq<Member>)
    ensures ConvertedMembers(ConvertedMembers(ms)) == ConvertedMembers(ms)
    decreases ms, 0
  {
    if ms != [] {
      ConversionIdempotent(ms[0].value);
      MembersIdempotent(ms[1..]);
      var once := ConvertedMembers(ms);
      assert once[1..] == ConvertedMembers(ms[1..]);
    }
  }
}
