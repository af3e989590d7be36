# Model of the model-spec validation engine

This project models, in Dafny, the validation engine of the CNCF ModelPack model
specification (`schema/validator.go`). A `Validator` is a media-type string. Its
`Validate` runs the semantic check registered for that media type, if there is one, on
the fully buffered input. It then runs the JSON Schema stage on the same bytes. That
stage loads every bundled schema file into a fresh compiler, under the file's name and
under each of its URL aliases, compiles the media type's root schema, and checks the
input against it. The first failure is the result.

The one semantic check is `validateConfig`, for model configurations. It is a chain of
guards: the bytes must decode; the descriptor must have a name or a family; `modelfs.type`
must be `"layers"`; `modelfs.diffIds` must be non-empty; the architecture is inspected
without effect; and every input modality and then every output modality must be one of
the six known ones.

Files:

- `prelude.dfy` (module `Prelude`): `byte`, `Option` (Go's nil) and `Outcome` (Go's `error`).
- `config_rules.dfy` (module `ConfigRules`): the decoded configuration, the error tags, the
  specification function `ConfigVerdict`, one lemma per rule, and the method
  `ValidateConfig`. That method runs the chain with the source's two loops and is proved
  equal to `ConfigVerdict`.
- `schema_compiler.dfy` (module `SchemaCompiler`): the `Compiler` class, whose
  `resources` map the source's `AddResource` calls update in place. It also holds the
  specification `Load` of the directory loop and the lemmas about registration.
- `validator.dfy` (module `Validator`): the environment of external collaborators, the
  specification `SchemaVerdict` of the schema stage, the method `ValidateSchema` (the
  directory loop over a fresh `Compiler`, proved against `SchemaVerdict`) and the facade
  method `Validate`.

External collaborators are parameters, gathered in `Validator.Env`:

- `registry` is the media-type → semantic-check table; a `None` entry is a nil function.
- `specs` and `specURLs` are the media-type → root-identifier and file → aliases tables.
- `specDir` is the embedded directory listing. Each entry carries its bytes, or `None`
  when the file cannot be read. `None` for the whole listing means it cannot be read.
- `decodeModel` and `isJson` stand for JSON decoding.
- `accepts`, `compiles` and `conforms` stand for the JSON Schema engine: `AddResource`,
  `Compile` and `Schema.Validate`.
- The input stream is `Source(data, readFails)`.

Three details of the code that the model keeps:

- The aliases of a file are the ordered list `specURLs[name]`, registered in that order
  (schema/validator.go:83).
- A file with no aliases has already been registered under its own name when the load
  aborts (schema/validator.go:75, 79-82).
- Every input modality is checked before any output modality (schema/validator.go:167-177).

## Model

| member | source | states |
|---|---|---|
| `ConfigRules.FirstInvalid` | schema/validator.go:167-177 | no element is returned exactly when every modality in the list is one of the six known ones; a returned element is in the list and unknown |
| `ConfigRules.FirstInvalidIsFirst` | schema/validator.go:167-171 | the element returned is exactly the one at the first position holding an unknown modality, every earlier one being known |
| `ConfigRules.ConfigPassesIff` | schema/validator.go:116-180 | the rule chain passes if and only if decoding succeeded and every rule holds (name or family, type "layers", non-empty diffIds, all modalities known when capabilities are present) |
| `ConfigRules.FormatMismatchIff` | schema/validator.go:119-122 | the decode error is reported exactly when decoding failed |
| `ConfigRules.NoNameOrFamilyIff` | schema/validator.go:125-127 | the name/family error is reported exactly when decoding succeeded and both name and family are empty |
| `ConfigRules.BadFsTypeIff` | schema/validator.go:130-132 | past the descriptor check, any type other than "layers", the empty one included, fails with an error carrying that value, and only then |
| `ConfigRules.EmptyDiffIdsIff` | schema/validator.go:134-136 | the empty-diffIds error is reported exactly when the descriptor and type checks passed and diffIds is empty |
| `ConfigRules.ArchitectureIgnored` | schema/validator.go:139-154 | for every architecture string the verdict equals the verdict with an empty architecture |
| `ConfigRules.BadInputIff` | schema/validator.go:157-171 | an input-modality error naming m is reported exactly when the earlier rules pass, capabilities are present, and m is the first unknown input type |
| `ConfigRules.BadOutputIff` | schema/validator.go:157-177 | an output-modality error naming m is reported exactly when the earlier rules pass, capabilities are present, every input type is known, and m is the first unknown output type |
| `ConfigRules.OnlyTypeRuleBroken` | schema/validator.go:130-132 | a configuration satisfying every rule passes, and setting its type to "blobs" fails with the type error naming "blobs" |
| `ConfigRules.UnknownInputAfterKnown` | schema/validator.go:167-171 | with input types ["text", "smell"] and the earlier rules passing, the chain fails naming "smell" as an invalid input modality |
| `ConfigRules.ValidateConfig` | schema/validator.go:116-181 | the guards and the two loops over the modality lists return exactly the verdict of the rule chain on the decoded bytes |
| `SchemaCompiler.Compiler.constructor` | schema/validator.go:60 | a new compiler holds no resources |
| `SchemaCompiler.Compiler.AddResource` | schema/validator.go:75 | succeeds exactly when the engine accepts the document, and then stores it under the identifier, replacing any earlier one; otherwise nothing changes |
| `SchemaCompiler.Compiler.Compile` | schema/validator.go:92-95 | yields a schema exactly when the root compiles from the registered resources, and that schema is built from that root and those resources |
| `SchemaCompiler.Files` | schema/validator.go:67-70 | every entry kept is a non-directory entry, and an entry is kept exactly when it is a non-directory entry of the listing |
| `SchemaCompiler.FilesAppend` | schema/validator.go:67-70 | keeping the files of a concatenation gives the kept files of each part, in the same order; with `FilesOfOne` this makes the kept files the listing's files in order and with their multiplicity |
| `SchemaCompiler.FilesOfOne` | schema/validator.go:68-70 | a one-entry listing keeps its entry exactly when it is not a directory |
| `SchemaCompiler.LoadIgnoresDirectories` | schema/validator.go:67-70 | loading a listing gives the same resources and error as loading only its files |
| `SchemaCompiler.AddAliasesSucceedsIff` | schema/validator.go:83-88 | registering a file under its aliases succeeds exactly when the engine accepts it under every alias |
| `SchemaCompiler.LoadSucceedsIff` | schema/validator.go:67-89 | the directory loop ends without error exactly when every file is readable, accepted under its name, has at least one alias, and is accepted under every alias |
| `SchemaCompiler.LoadReportsFirstFailure` | schema/validator.go:67-89 | the loop fails with the error of the first entry that does not load, whatever came before it |
| `SchemaCompiler.LoadAbortsOnUnaliasedFile` | schema/validator.go:79-82 | a readable, accepted file with an empty alias list aborts the loop with the "no aliases" error naming it, once every earlier entry has loaded |
| `SchemaCompiler.AddAliasesStores` | schema/validator.go:83-88 | after a successful alias run the document is stored under every alias, the new identifiers are exactly the aliases, and every other identifier keeps its document |
| `SchemaCompiler.LoadEntryStores` | schema/validator.go:71-88 | after one successful iteration the file's document is stored under its name and every alias, and nothing else changes |
| `SchemaCompiler.LoadStoresEveryFile` | schema/validator.go:67-89 | after a successful loop over a listing where no identifier is claimed by two files, every file's document is stored under its name and each of its aliases, the identifiers added are exactly those, and earlier resources are untouched |
| `Validator.UnknownMediaTypeFailsFirst` | schema/validator.go:56-58 | a media type with no schema fails with "no validator", whatever the embedded directory holds |
| `Validator.SchemaPassesIff` | schema/validator.go:55-107 | the schema stage passes exactly when the media type has a schema, every bundled file loads, the schema compiles, and the input is JSON satisfying it |
| `Validator.SchemaStageIgnoresSemanticLayer` | schema/validator.go:51-52 | the schema stage's verdict does not depend on the semantic registry or the configuration decoder |
| `Validator.ValidateSchema` | schema/validator.go:55-108 | the loop over the embedded directory, filling a fresh compiler, followed by compile, decode and validate, returns exactly the schema-stage verdict |
| `Validator.Validate` | schema/validator.go:33-53 | a nil registered check gives the internal error before the input is read; a registered check runs on the buffered bytes; its failure is returned unchanged and the schema stage is not reached; otherwise the schema stage runs on exactly those bytes; with no registered check the schema stage reads the stream itself; with the shipped registry, which has no nil entry (schema/validator.go:112-114), the internal error never arises |

## Left out

- The JSON Schema engine (resource parsing in `AddResource`, `Compile`, `Schema.Validate`)
  is given as functions. Draft handling, `$ref` resolution and the engine's URL
  normalisation of resource identifiers are not modelled.
- JSON decoding (`json.Unmarshal` into the configuration, `json.Decoder.Decode` of the
  input) is given as functions. Which bytes are valid JSON, and the decoder reading only
  the first value, are not modelled.
- Reading the input and the embedded directory are reduced to byte sequences, with a
  flag or `None` for a read failure.
- `Validator.ValidateSchema`: with no registered check, a stream that fails to read always
  gives the parse error. Go's JSON decoder succeeds when the stream delivers a complete
  first JSON value before its read error; that case is not modelled.
- Error message text and `%w` wrapping are reduced to error tags.
- The values of the modality, architecture and media-type constants come from
  `specs-go/v1` and `schema/schema.go`, which are not part of this model. The model uses
  lower-case strings for them; its proofs rely only on membership in the modality set.
- The `specs` and `specURLs` tables come from `schema/schema.go`, which is not part of
  this model. They are parameters.
- `ConfigRules.ValidateConfig`: the architecture classification is computed and
  discarded, as in the source. The "warning" the source comments on is not emitted there
  either.
- `SchemaCompiler.LoadStoresEveryFile`: exact stored documents are stated only when no
  identifier is claimed by two files. A later registration replaces an earlier one, so
  the general case keeps only the last document.
- `schema/example_test.go` (markdown example extraction for tests) and
  `schema/schema_test.go` (opening the embedded file system) are test harness and
  packaging, with no validation logic.
