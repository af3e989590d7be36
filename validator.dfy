/**
 * The validator facade of schema/validator.go: `Validate` runs the semantic check
 * registered for a media type (if any) on the buffered input, and then the JSON Schema
 * stage `ValidateSchema`, which loads the bundled schema files, compiles the schema of
 * the media type and checks the input against it. The first failure is the result.
 */
module Validator {
  import opened Prelude
  import opened ConfigRules
  import opened SchemaCompiler

  /** The semantic checks that can be registered for a media type (one per media type needing one). */
  datatype SemanticCheck = ConfigCheck

  /** The media type of model configurations. */
  const MediaTypeModelConfig: string := "application/vnd.cncf.model.config.v1+json"

  /** The registry of the source: only model configurations have a semantic check. */
  const ValidateByMediaType: map<string, Option<SemanticCheck>> := map[MediaTypeModelConfig := Some(ConfigCheck)]

  /** The input stream: its bytes, and whether reading it fails. */
  datatype Source = Source(data: seq<byte>, readFails: bool)

  /**
   * Everything the validator consults but does not own: the lookup tables, the embedded
   * directory, and the JSON decoder and JSON Schema engine, given as functions.
   */
  datatype Env = Env(
    registry: map<string, Option<SemanticCheck>>,          // media type -> semantic check (None: a nil entry)
    specs: map<string, string>,                           // media type -> root schema identifier
    specURLs: map<string, seq<string>>,                   // schema file name -> URL aliases
    specDir: Option<seq<DirEntry>>,                       // the embedded directory (None: it cannot be listed)
    decodeModel: seq<byte> -> Option<ConfigRules.Model>,  // decoding into a model configuration
    isJson: seq<byte> -> bool,                            // whether the input decodes as a JSON value
    accepts: (string, seq<byte>) -> bool,                 // whether the compiler accepts a resource
    compiles: (map<string, seq<byte>>, string) -> bool,   // whether a root schema compiles
    conforms: (Schema, seq<byte>) -> bool)                // whether a decoded input satisfies a compiled schema

  /** One tag per error the facade can return. */
  datatype ValidationError =
    | NilCheck(mediaType: string)        // internal error: a nil semantic check is registered
    | ReadInput                          // the input stream could not be read
    | Semantic(rule: ConfigError)        // a semantic rule failed; returned unchanged
    | NoValidator(mediaType: string)     // no schema for the media type
    | ReadSpecDir                        // the embedded directory could not be listed
    | LoadSpecs(load: LoadError)         // a schema file could not be registered
    | CompileSchema(mediaType: string)   // the schema did not compile
    | ParseInput                         // the input is not JSON
    | Violation                          // the input does not satisfy the schema

  /** What a registered semantic check reports on the buffered bytes. */
  function SemanticVerdict(check: SemanticCheck, buf: seq<byte>, env: Env): Outcome<ConfigError>
  {
    match check
    case ConfigCheck => ConfigVerdict(env.decodeModel(buf))
  }

  /** The compiler state and load outcome the schema stage reaches for a listing. */
  function LoadSpecDir(dir: seq<DirEntry>, env: Env): LoadResult
  {
    Load(map[], dir, env.specURLs, env.accepts)
  }

  /** The verdict of the JSON Schema stage on a stream. */
  function SchemaVerdict(mt: string, src: Source, env: Env): Outcome<ValidationError>
  {
    if mt !in env.specs then Fail(NoValidator(mt))
    else match env.specDir
      case None => Fail(ReadSpecDir)
      case Some(dir) =>
        var loaded := LoadSpecDir(dir, env);
        if loaded.err.Fail? then Fail(LoadSpecs(loaded.err.error))
        else if !env.compiles(loaded.resources, env.specs[mt]) then Fail(CompileSchema(mt))
        else if src.readFails || !env.isJson(src.data) then Fail(ParseInput)
        else if !env.conforms(Schema(env.specs[mt], loaded.resources), src.data) then Fail(Violation)
        else Pass
  }

  /** A media type without a schema fails before any schema file is consulted. */
  lemma UnknownMediaTypeFailsFirst(mt: string, src: Source, env: Env, dir: Option<seq<DirEntry>>)
    requires mt !in env.specs
    ensures SchemaVerdict(mt, src, env) == Fail(NoValidator(mt))
    ensures SchemaVerdict(mt, src, env.(specDir := dir)) == SchemaVerdict(mt, src, env)
  {
  }

  /**
   * The schema stage passes exactly when the media type has a schema, every bundled file
   * loads, the schema compiles from them, and the input is JSON satisfying it.
   */
  lemma SchemaPassesIff(mt: string, src: Source, env: Env)
    ensures SchemaVerdict(mt, src, env) == Pass <==>
      && mt in env.specs
      && env.specDir.Some?
      && (forall k :: 0 <= k < |env.specDir.value| ==> EntryLoads(env.specDir.value[k], env.specURLs, env.accepts))
      && env.compiles(LoadSpecDir(env.specDir.value, env).resources, env.specs[mt])
      && !src.readFails && env.isJson(src.data)
      && env.conforms(Schema(env.specs[mt], LoadSpecDir(env.specDir.value, env).resources), src.data)
  {
    if env.specDir.Some? {
      LoadSucceedsIff(map[], env.specDir.value, env.specURLs, env.accepts);
    }
  }

  /** The schema stage never consults the semantic layer: its verdict is the same whatever the registry and decoder. */
  lemma SchemaStageIgnoresSemanticLayer(mt: string, src: Source, env: Env,
                                        registry: map<string, Option<SemanticCheck>>, decode: seq<byte> -> Option<Model>)
    ensures SchemaVerdict(mt, src, env.(registry := registry, decodeModel := decode)) == SchemaVerdict(mt, src, env)
  {
  }

  /** The JSON Schema stage as the source runs it: the loop over the embedded directory fills a fresh compiler. */
  method ValidateSchema(mt: string, src: Source, env: Env) returns (err: Outcome<ValidationError>)
    ensures err == SchemaVerdict(mt, src, env)
  {
    if mt !in env.specs {
      return Fail(NoValidator(mt));
    }
    var c := new Compiler(env.accepts, env.compiles);
    if env.specDir.None? {
      return Fail(ReadSpecDir);
    }
    var dir := env.specDir.value;
    var i := 0;
    while i < |dir|
      invariant 0 <= i <= |dir|
      invariant LoadSpecDir(dir, env) == Load(c.resources, dir[i..], env.specURLs, env.accepts)
    {
      assert dir[i..][0] == dir[i] && dir[i..][1..] == dir[i + 1..];
      var file := dir[i];
      if file.isDir {
        i := i + 1;
        continue;
      }
      if file.content.None? {
        return Fail(LoadSpecs(ReadSpecFile(file.name)));
      }
      var specBuf := file.content.value;
      var ok := c.AddResource(file.name, specBuf);
      if !ok {
        return Fail(LoadSpecs(AddSpecFile(file.name)));
      }
      var aliases := AliasesOf(env.specURLs, file.name);
      if |aliases| == 0 {
        return Fail(LoadSpecs(NoAliases(file.name)));
      }
      ghost var entry := AddAliases(c.resources, file.name, aliases, specBuf, env.accepts);
      for j := 0 to |aliases|
        invariant entry == AddAliases(c.resources, file.name, aliases[j..], specBuf, env.accepts)
      {
        assert aliases[j..][0] == aliases[j] && aliases[j..][1..] == aliases[j + 1..];
        ok := c.AddResource(aliases[j], specBuf);
        if !ok {
          return Fail(LoadSpecs(AddSpecURL(file.name, aliases[j])));
        }
      }
      i := i + 1;
    }
    var schema := c.Compile(env.specs[mt]);
    if schema.None? {
      return Fail(CompileSchema(mt));
    }
    if src.readFails || !env.isJson(src.data) {
      return Fail(ParseInput);
    }
    if !env.conforms(schema.value, src.data) {
      return Fail(Violation);
    }
    return Pass;
  }

  /**
   * The facade. A registered nil check is an internal error before the input is read; a
   * registered check runs on the fully buffered input, a failure is returned unchanged
   * without reaching the schema stage, and otherwise the schema stage reads exactly the
   * buffered bytes; with no registered check the schema stage reads the stream directly.
   */
  method Validate(mt: string, src: Source, env: Env) returns (err: Outcome<ValidationError>)
    ensures mt in env.registry && env.registry[mt].None? ==> err == Fail(NilCheck(mt))
    ensures mt in env.registry && env.registry[mt].Some? && src.readFails ==> err == Fail(ReadInput)
    ensures mt in env.registry && env.registry[mt].Some? && !src.readFails ==>
      match SemanticVerdict(env.registry[mt].value, src.data, env)
      case Fail(e) => err == Fail(Semantic(e))
      case Pass => err == SchemaVerdict(mt, Source(src.data, false), env)
    ensures mt !in env.registry ==> err == SchemaVerdict(mt, src, env)
    ensures env.registry == ValidateByMediaType ==> err != Fail(NilCheck(mt))
  {
    var input := src;
    if mt in env.registry {
      var fn := env.registry[mt];
      if fn.None? {
        return Fail(NilCheck(mt));
      }
      if src.readFails {
        return Fail(ReadInput);
      }
      var buf := src.data;
      input := Source(buf, false);
      var pre: Outcome<ConfigError>;
      match fn.value {
        case ConfigCheck =>
          pre := ValidateConfig(buf, env.decodeModel);
      }
      if pre.Fail? {
        return Fail(Semantic(pre.error));
      }
    }
    err := ValidateSchema(mt, input, env);
  }
}
