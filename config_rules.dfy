/**
 * The semantic rules for the model configuration media type (`validateConfig` in
 * schema/validator.go): a chain of guards over the decoded configuration that stops at
 * the first rule the document breaks.
 *
 * `ConfigVerdict` is the specification of the chain; `ValidateConfig` is the chain as
 * the source runs it, with its two loops over the modality lists, proved equal to it.
 */
module ConfigRules {
  import opened Prelude

  /** The fields of a decoded `v1.Model` that the rules read. An absent string is "", an absent list []. */
  datatype ModelDescriptor = ModelDescriptor(name: string, family: string)
  datatype ModelFS = ModelFS(fsType: string, diffIds: seq<string>)
  datatype ModelCapabilities = ModelCapabilities(inputTypes: seq<string>, outputTypes: seq<string>)
  /** `capabilities` is a pointer in the source: `None` when the document has no capabilities object. */
  datatype ModelConfig = ModelConfig(architecture: string, capabilities: Option<ModelCapabilities>)
  datatype Model = Model(descriptor: ModelDescriptor, modelFS: ModelFS, config: ModelConfig)

  /** One tag per early return of the rule chain. */
  datatype ConfigError =
    | FormatMismatch                       // the bytes do not decode into a model configuration
    | NoNameOrFamily                       // descriptor has neither name nor family
    | BadFsType(got: string)               // modelfs.type is not "layers"; carries the value found
    | EmptyDiffIds                         // modelfs.diffIds is empty
    | BadInputModality(modality: string)   // first input type outside the known modalities
    | BadOutputModality(modality: string)  // first output type outside the known modalities

  const LayersType: string := "layers"

  /** The six modalities of the model specification. */
  const TextModality: string := "text"
  const ImageModality: string := "image"
  const AudioModality: string := "audio"
  const VideoModality: string := "video"
  const EmbeddingModality: string := "embedding"
  const OtherModality: string := "other"
  const Modalities: set<string> :=
    {TextModality, ImageModality, AudioModality, VideoModality, EmbeddingModality, OtherModality}

  /** The eight architectures the source knows; knowing one decides nothing. */
  const Architectures: set<string> :=
    {"transformer", "cnn", "rnn", "lstm", "gru", "diffusion", "vae", "gan"}

  /** The first element of `ms` that is not a known modality: where the source's range loop returns. */
  function FirstInvalid(ms: seq<string>): (r: Option<string>)
    ensures r.None? <==> forall i :: 0 <= i < |ms| ==> ms[i] in Modalities
    ensures r.Some? ==> r.value in ms && r.value !in Modalities
  {
    if ms == [] then None
    else if ms[0] !in Modalities then Some(ms[0])
    else
      assert forall i :: 1 <= i < |ms| ==> ms[i] == ms[1..][i - 1];
      FirstInvalid(ms[1..])
  }

  /** Declaratively: `m` sits at some position of `ms` outside the modalities, and everything before it is inside. */
  ghost predicate IsFirstInvalid(ms: seq<string>, m: string)
  {
    exists i :: 0 <= i < |ms| && ms[i] == m && m !in Modalities &&
      forall j :: 0 <= j < i ==> ms[j] in Modalities
  }

  lemma {:induction false} FirstInvalidIsFirst(ms: seq<string>, m: string)
    ensures FirstInvalid(ms) == Some(m) <==> IsFirstInvalid(ms, m)
  {
    if ms == [] {
    } else if ms[0] !in Modalities {
      if IsFirstInvalid(ms, m) {
        var i :| 0 <= i < |ms| && ms[i] == m && m !in Modalities &&
          forall j :: 0 <= j < i ==> ms[j] in Modalities;
        assert i == 0;
      }
      assert ms[0] == m ==> IsFirstInvalid(ms, m);
    } else {
      FirstInvalidIsFirst(ms[1..], m);
      if IsFirstInvalid(ms, m) {
        var i :| 0 <= i < |ms| && ms[i] == m && m !in Modalities &&
          forall j :: 0 <= j < i ==> ms[j] in Modalities;
        assert i > 0;
        assert ms[1..][i - 1] == m;
        assert IsFirstInvalid(ms[1..], m);
      }
      if IsFirstInvalid(ms[1..], m) {
        var i :| 0 <= i < |ms[1..]| && ms[1..][i] == m && m !in Modalities &&
          forall j :: 0 <= j < i ==> ms[1..][j] in Modalities;
        assert ms[i + 1] == m;
        assert forall j :: 1 <= j < i + 1 ==> ms[j] == ms[1..][j - 1];
        assert IsFirstInvalid(ms, m);
      }
    }
  }

  /** The guards on the descriptor and the model filesystem (lines 125-136 of the source). */
  predicate HasNameOrFamily(mc: Model)
  {
    mc.descriptor.name != "" || mc.descriptor.family != ""
  }

  predicate IsLayers(mc: Model)
  {
    mc.modelFS.fsType == LayersType
  }

  predicate HasDiffIds(mc: Model)
  {
    |mc.modelFS.diffIds| > 0
  }

  /** Every modality in both lists is known (vacuous when the capabilities object is absent). */
  predicate KnownModalities(mc: Model)
  {
    match mc.config.capabilities
    case None => true
    case Some(caps) =>
      && (forall i :: 0 <= i < |caps.inputTypes| ==> caps.inputTypes[i] in Modalities)
      && (forall i :: 0 <= i < |caps.outputTypes| ==> caps.outputTypes[i] in Modalities)
  }

  /** All the semantic rules of a model configuration, with no order among them. */
  predicate SatisfiesRules(mc: Model)
  {
    HasNameOrFamily(mc) && IsLayers(mc) && HasDiffIds(mc) && KnownModalities(mc)
  }

  /**
   * The verdict of the rule chain on a decoding result (`None`: the bytes did not decode).
   * The architecture check of the source is omitted: it never returns, so it has no effect.
   */
  function ConfigVerdict(decoded: Option<Model>): Outcome<ConfigError>
  {
    match decoded
    case None => Fail(FormatMismatch)
    case Some(mc) =>
      if !HasNameOrFamily(mc) then Fail(NoNameOrFamily)
      else if !IsLayers(mc) then Fail(BadFsType(mc.modelFS.fsType))
      else if !HasDiffIds(mc) then Fail(EmptyDiffIds)
      else match mc.config.capabilities
        case None => Pass
        case Some(caps) =>
          match FirstInvalid(caps.inputTypes)
          case Some(m) => Fail(BadInputModality(m))
          case None =>
            match FirstInvalid(caps.outputTypes)
            case Some(m) => Fail(BadOutputModality(m))
            case None => Pass
  }

  /** The chain passes exactly when decoding succeeded and every rule holds. */
  lemma ConfigPassesIff(decoded: Option<Model>)
    ensures ConfigVerdict(decoded) == Pass <==> decoded.Some? && SatisfiesRules(decoded.value)
  {
  }

  lemma FormatMismatchIff(decoded: Option<Model>)
    ensures ConfigVerdict(decoded) == Fail(FormatMismatch) <==> decoded.None?
  {
  }

  /** The name/family error is reported exactly when decoding succeeded and both strings are empty. */
  lemma NoNameOrFamilyIff(decoded: Option<Model>)
    ensures ConfigVerdict(decoded) == Fail(NoNameOrFamily) <==>
      decoded.Some? && decoded.value.descriptor.name == "" && decoded.value.descriptor.family == ""
  {
  }

  /** Past the descriptor check, any type other than "layers" (the empty one included) fails, naming that value. */
  lemma BadFsTypeIff(decoded: Option<Model>, got: string)
    ensures ConfigVerdict(decoded) == Fail(BadFsType(got)) <==>
      decoded.Some? && HasNameOrFamily(decoded.value) && got == decoded.value.modelFS.fsType && got != LayersType
  {
  }

  /** An empty diffIds list is reported only once the descriptor and type checks have passed. */
  lemma EmptyDiffIdsIff(decoded: Option<Model>)
    ensures ConfigVerdict(decoded) == Fail(EmptyDiffIds) <==>
      decoded.Some? && HasNameOrFamily(decoded.value) && IsLayers(decoded.value) && !HasDiffIds(decoded.value)
  {
  }

  /** The architecture never changes the verdict: any value behaves like the empty one. */
  lemma ArchitectureIgnored(mc: Model, arch: string)
    ensures ConfigVerdict(Some(mc.(config := mc.config.(architecture := arch)))) ==
            ConfigVerdict(Some(mc.(config := mc.config.(architecture := ""))))
  {
  }

  /**
   * An input-modality error needs a capabilities object, all earlier rules passing,
   * and names the first unknown input type.
   */
  lemma BadInputIff(decoded: Option<Model>, m: string)
    ensures ConfigVerdict(decoded) == Fail(BadInputModality(m)) <==>
      && decoded.Some?
      && HasNameOrFamily(decoded.value) && IsLayers(decoded.value) && HasDiffIds(decoded.value)
      && decoded.value.config.capabilities.Some?
      && IsFirstInvalid(decoded.value.config.capabilities.value.inputTypes, m)
  {
    if decoded.Some? && decoded.value.config.capabilities.Some? {
      FirstInvalidIsFirst(decoded.value.config.capabilities.value.inputTypes, m);
    }
  }

  /**
   * An output-modality error is reported only when every input type is known,
   * and names the first unknown output type.
   */
  lemma BadOutputIff(decoded: Option<Model>, m: string)
    ensures ConfigVerdict(decoded) == Fail(BadOutputModality(m)) <==>
      && decoded.Some?
      && HasNameOrFamily(decoded.value) && IsLayers(decoded.value) && HasDiffIds(decoded.value)
      && decoded.value.config.capabilities.Some?
      && (forall i :: 0 <= i < |decoded.value.config.capabilities.value.inputTypes| ==>
            decoded.value.config.capabilities.value.inputTypes[i] in Modalities)
      && IsFirstInvalid(decoded.value.config.capabilities.value.outputTypes, m)
  {
    if decoded.Some? && decoded.value.config.capabilities.Some? {
      FirstInvalidIsFirst(decoded.value.config.capabilities.value.outputTypes, m);
    }
  }

  /** Breaking only the type rule of a valid configuration yields the type error and nothing else. */
  lemma OnlyTypeRuleBroken(mc: Model)
    requires SatisfiesRules(mc)
    ensures ConfigVerdict(Some(mc)) == Pass
    ensures ConfigVerdict(Some(mc.(modelFS := mc.modelFS.(fsType := "blobs"))))
            == Fail(BadFsType("blobs"))
  {
  }

  /** An unknown input type after a known one is reported as an input error naming it. */
  lemma UnknownInputAfterKnown(mc: Model, outputs: seq<string>)
    requires HasNameOrFamily(mc) && IsLayers(mc) && HasDiffIds(mc)
    ensures ConfigVerdict(Some(mc.(config := mc.config.(capabilities :=
              Some(ModelCapabilities([TextModality, "smell"], outputs))))))
            == Fail(BadInputModality("smell"))
  {
    var inputs := [TextModality, "smell"];
    assert inputs[1..] == ["smell"];
    assert FirstInvalid(["smell"]) == Some("smell");
  }

  /** Whether an architecture is one of the known ones; the source computes it and ignores the answer. */
  predicate KnownArchitecture(arch: string)
  {
    arch in Architectures
  }

  /** The rule chain as the source runs it: early returns and two loops over the modality lists. */
  method ValidateConfig(buf: seq<byte>, decode: seq<byte> -> Option<Model>) returns (err: Outcome<ConfigError>)
    ensures err == ConfigVerdict(decode(buf))
  {
    var decoded := decode(buf);
    if decoded.None? {
      return Fail(FormatMismatch);
    }
    var mc := decoded.value;
    if mc.descriptor.name == "" && mc.descriptor.family == "" {
      return Fail(NoNameOrFamily);
    }
    if mc.modelFS.fsType != LayersType {
      return Fail(BadFsType(mc.modelFS.fsType));
    }
    if |mc.modelFS.diffIds| == 0 {
      return Fail(EmptyDiffIds);
    }
    if mc.config.architecture != "" {
      var known := KnownArchitecture(mc.config.architecture);
      // an unknown architecture is accepted: custom architectures are allowed
    }
    if mc.config.capabilities.Some? {
      var caps := mc.config.capabilities.value;
      for i := 0 to |caps.inputTypes|
        invariant forall j :: 0 <= j < i ==> caps.inputTypes[j] in Modalities
      {
        if caps.inputTypes[i] !in Modalities {
          FirstInvalidIsFirst(caps.inputTypes, caps.inputTypes[i]);
          return Fail(BadInputModality(caps.inputTypes[i]));
        }
      }
      for i := 0 to |caps.outputTypes|
        invariant forall j :: 0 <= j < i ==> caps.outputTypes[j] in Modalities
      {
        if caps.outputTypes[i] !in Modalities {
          FirstInvalidIsFirst(caps.outputTypes, caps.outputTypes[i]);
          return Fail(BadOutputModality(caps.outputTypes[i]));
        }
      }
    }
    return Pass;
  }
}
