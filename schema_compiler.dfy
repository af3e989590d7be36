/**
 * Loading the bundled schema files into a JSON Schema compiler (the directory loop of
 * `validateSchema` in schema/validator.go). Each regular file is registered under its
 * own name and then under every URL alias listed for it; a file with no alias aborts
 * the load.
 *
 * The compiler itself belongs to an external library: here it is a map from resource
 * identifiers to documents, and whether it accepts a document or compiles a root
 * identifier are given functions.
 */
module SchemaCompiler {
  import opened Prelude

  /** An entry of the embedded directory; `content` is `None` when reading the file fails. */
  datatype DirEntry = DirEntry(name: string, isDir: bool, content: Option<seq<byte>>)

  /** The errors the directory loop returns, each naming the file concerned. */
  datatype LoadError =
    | ReadSpecFile(file: string)
    | AddSpecFile(file: string)
    | NoAliases(file: string)
    | AddSpecURL(file: string, url: string)

  /** A compiled schema: the root identifier and the resources it was compiled from. */
  datatype Schema = Schema(root: string, resources: map<string, seq<byte>>)

  /** The JSON Schema compiler: the resources registered so far. */
  class Compiler {
    /** Whether the engine accepts `doc` as a resource under `url` (it must parse as JSON). */
    const accepts: (string, seq<byte>) -> bool
    /** Whether the schema named by a root identifier compiles from the given resources. */
    const compiles: (map<string, seq<byte>>, string) -> bool
    var resources: map<string, seq<byte>>

    constructor (accepts: (string, seq<byte>) -> bool, compiles: (map<string, seq<byte>>, string) -> bool)
      ensures this.accepts == accepts && this.compiles == compiles
      ensures resources == map[]
    {
      this.accepts := accepts;
      this.compiles := compiles;
      resources := map[];
    }

    /** Registers `doc` under `url`, replacing any earlier document there, unless the engine refuses it. */
    method AddResource(url: string, doc: seq<byte>) returns (ok: bool)
      modifies this
      ensures ok == accepts(url, doc)
      ensures resources == if ok then old(resources)[url := doc] else old(resources)
    {
      ok := accepts(url, doc);
      if ok {
        resources := resources[url := doc];
      }
    }

    /** Compiles the schema named `root` from the registered resources. */
    method Compile(root: string) returns (s: Option<Schema>)
      ensures s.Some? <==> compiles(resources, root)
      ensures s.Some? ==> s.value.root == root && s.value.resources == resources
    {
      if compiles(resources, root) {
        s := Some(Schema(root, resources));
      } else {
        s := None;
      }
    }
  }

  /** The state of the compiler after a run of the loop, and the error that stopped it, if any. */
  datatype LoadResult = LoadResult(resources: map<string, seq<byte>>, err: Outcome<LoadError>)

  /** The aliases listed for a file name; a file missing from the table has none. */
  function AliasesOf(specURLs: map<string, seq<string>>, name: string): seq<string>
  {
    if name in specURLs then specURLs[name] else []
  }

  /** Registers `doc` under each URL in turn, stopping at the first one the engine refuses. */
  function AddAliases(res: map<string, seq<byte>>, file: string, urls: seq<string>, doc: seq<byte>,
                      accepts: (string, seq<byte>) -> bool): LoadResult
    decreases |urls|
  {
    if urls == [] then LoadResult(res, Pass)
    else if !accepts(urls[0], doc) then LoadResult(res, Fail(AddSpecURL(file, urls[0])))
    else AddAliases(res[urls[0] := doc], file, urls[1..], doc, accepts)
  }

  /** One iteration of the directory loop. */
  function LoadEntry(res: map<string, seq<byte>>, e: DirEntry, specURLs: map<string, seq<string>>,
                     accepts: (string, seq<byte>) -> bool): LoadResult
  {
    if e.isDir then LoadResult(res, Pass)
    else match e.content
      case None => LoadResult(res, Fail(ReadSpecFile(e.name)))
      case Some(doc) =>
        if !accepts(e.name, doc) then LoadResult(res, Fail(AddSpecFile(e.name)))
        else if |AliasesOf(specURLs, e.name)| == 0 then LoadResult(res[e.name := doc], Fail(NoAliases(e.name)))
        else AddAliases(res[e.name := doc], e.name, AliasesOf(specURLs, e.name), doc, accepts)
  }

  /** The directory loop from compiler state `res`, stopping at the first error. */
  function Load(res: map<string, seq<byte>>, dir: seq<DirEntry>, specURLs: map<string, seq<string>>,
                accepts: (string, seq<byte>) -> bool): LoadResult
    decreases |dir|
  {
    if dir == [] then LoadResult(res, Pass)
    else
      var r := LoadEntry(res, dir[0], specURLs, accepts);
      if r.err.Fail? then r else Load(r.resources, dir[1..], specURLs, accepts)
  }

  /** The regular files of a listing, in order. */
  function Files(dir: seq<DirEntry>): (fs: seq<DirEntry>)
    ensures forall i :: 0 <= i < |fs| ==> !fs[i].isDir
    ensures forall e {:trigger e in fs} :: e in dir && !e.isDir <==> e in fs
    decreases |dir|
  {
    if dir == [] then []
    else if dir[0].isDir then Files(dir[1..])
    else [dir[0]] + Files(dir[1..])
  }

  /** Filtering distributes over concatenation; with `FilesOfOne` this fixes `Files` as the order-preserving filter. */
  lemma {:induction false} FilesAppend(a: seq<DirEntry>, b: seq<DirEntry>)
    ensures Files(a + b) == Files(a) + Files(b)
    decreases |a|
  {
    if a == [] {
      assert a + b == b;
    } else {
      var ab := a + b;
      assert ab[0] == a[0];
      assert ab[1..] == a[1..] + b;
      FilesAppend(a[1..], b);
      if a[0].isDir {
        assert Files(ab) == Files(a[1..] + b);
      } else {
        assert Files(ab) == [a[0]] + Files(a[1..] + b);
        assert Files(a) == [a[0]] + Files(a[1..]);
      }
    }
  }

  /** A one-entry listing keeps its entry exactly when it is not a directory. */
  lemma FilesOfOne(e: DirEntry)
    ensures Files([e]) == if e.isDir then [] else [e]
  {
    assert [e][1..] == [];
  }

  /** Whether an entry loads without error: a directory always does; a file must be readable,
      accepted, have at least one alias, and be accepted under every alias. */
  ghost predicate EntryLoads(e: DirEntry, specURLs: map<string, seq<string>>, accepts: (string, seq<byte>) -> bool)
  {
    e.isDir ||
    (&& e.content.Some?
     && accepts(e.name, e.content.value)
     && |AliasesOf(specURLs, e.name)| > 0
     && forall k :: 0 <= k < |AliasesOf(specURLs, e.name)| ==> accepts(AliasesOf(specURLs, e.name)[k], e.content.value))
  }

  /** The identifiers a file is registered under: its name and its aliases. */
  function EntryKeys(e: DirEntry, specURLs: map<string, seq<string>>): set<string>
  {
    if e.isDir then {} else {e.name} + (set u | u in AliasesOf(specURLs, e.name))
  }

  function DirKeys(dir: seq<DirEntry>, specURLs: map<string, seq<string>>): set<string>
  {
    set j, u | 0 <= j < |dir| && u in EntryKeys(dir[j], specURLs) :: u
  }

  /** No identifier is claimed by two different entries of the listing. */
  ghost predicate Unambiguous(dir: seq<DirEntry>, specURLs: map<string, seq<string>>)
  {
    forall i, j :: 0 <= i < j < |dir| ==> EntryKeys(dir[i], specURLs) !! EntryKeys(dir[j], specURLs)
  }

  /** A file's document is stored under its name and under each of its aliases. */
  ghost predicate Stored(res: map<string, seq<byte>>, e: DirEntry, specURLs: map<string, seq<string>>)
  {
    !e.isDir ==>
      && e.content.Some?
      && e.name in res && res[e.name] == e.content.value
      && forall u :: u in AliasesOf(specURLs, e.name) ==> u in res && res[u] == e.content.value
  }

  /** Directory entries are skipped: the loop over the listing is the loop over its files. */
  lemma {:induction false} LoadIgnoresDirectories(res: map<string, seq<byte>>, dir: seq<DirEntry>,
                                                 specURLs: map<string, seq<string>>, accepts: (string, seq<byte>) -> bool)
    ensures Load(res, dir, specURLs, accepts) == Load(res, Files(dir), specURLs, accepts)
    decreases |dir|
  {
    if dir != [] {
      LoadIgnoresDirectories(LoadEntry(res, dir[0], specURLs, accepts).resources, dir[1..], specURLs, accepts);
      if !dir[0].isDir {
        assert ([dir[0]] + Files(dir[1..]))[1..] == Files(dir[1..]);
      }
    }
  }

  lemma {:induction false} AddAliasesSucceedsIff(res: map<string, seq<byte>>, file: string, urls: seq<string>,
                                                 doc: seq<byte>, accepts: (string, seq<byte>) -> bool)
    ensures AddAliases(res, file, urls, doc, accepts).err == Pass <==>
            forall k :: 0 <= k < |urls| ==> accepts(urls[k], doc)
    decreases |urls|
  {
    if urls != [] {
      AddAliasesSucceedsIff(res[urls[0] := doc], file, urls[1..], doc, accepts);
      assert forall k :: 1 <= k < |urls| ==> urls[k] == urls[1..][k - 1];
    }
  }

  /** The loop finishes without error exactly when every entry loads. */
  lemma {:induction false} LoadSucceedsIff(res: map<string, seq<byte>>, dir: seq<DirEntry>,
                                           specURLs: map<string, seq<string>>, accepts: (string, seq<byte>) -> bool)
    ensures Load(res, dir, specURLs, accepts).err == Pass <==>
            forall k :: 0 <= k < |dir| ==> EntryLoads(dir[k], specURLs, accepts)
    decreases |dir|
  {
    if dir != [] {
      var e := dir[0];
      if !e.isDir && e.content.Some? && accepts(e.name, e.content.value) && |AliasesOf(specURLs, e.name)| > 0 {
        AddAliasesSucceedsIff(res[e.name := e.content.value], e.name, AliasesOf(specURLs, e.name), e.content.value, accepts);
      }
      LoadSucceedsIff(LoadEntry(res, e, specURLs, accepts).resources, dir[1..], specURLs, accepts);
      assert forall k :: 1 <= k < |dir| ==> dir[k] == dir[1..][k - 1];
    }
  }

  /** The error of one entry does not depend on what was registered before it. */
  lemma {:induction false} AddAliasesErrorIgnoresState(r1: map<string, seq<byte>>, r2: map<string, seq<byte>>, file: string,
                                                       urls: seq<string>, doc: seq<byte>, accepts: (string, seq<byte>) -> bool)
    ensures AddAliases(r1, file, urls, doc, accepts).err == AddAliases(r2, file, urls, doc, accepts).err
    decreases |urls|
  {
    if urls != [] {
      AddAliasesErrorIgnoresState(r1[urls[0] := doc], r2[urls[0] := doc], file, urls[1..], doc, accepts);
    }
  }

  /** The loop reports the error of the first entry that does not load, and nothing later runs. */
  lemma {:induction false} LoadReportsFirstFailure(res: map<string, seq<byte>>, dir: seq<DirEntry>,
                                                   specURLs: map<string, seq<string>>, accepts: (string, seq<byte>) -> bool, k: nat)
    requires k < |dir|
    requires forall j :: 0 <= j < k ==> EntryLoads(dir[j], specURLs, accepts)
    requires !EntryLoads(dir[k], specURLs, accepts)
    ensures Load(res, dir, specURLs, accepts).err == LoadEntry(map[], dir[k], specURLs, accepts).err
    ensures Load(res, dir, specURLs, accepts).err.Fail?
    decreases k
  {
    var e := dir[0];
    if e.isDir || (e.content.Some? && accepts(e.name, e.content.value) && |AliasesOf(specURLs, e.name)| > 0) {
      if !e.isDir {
        AddAliasesSucceedsIff(res[e.name := e.content.value], e.name, AliasesOf(specURLs, e.name), e.content.value, accepts);
        AddAliasesErrorIgnoresState(res[e.name := e.content.value], map[][e.name := e.content.value], e.name,
                                    AliasesOf(specURLs, e.name), e.content.value, accepts);
        assert k > 0 ==> EntryLoads(dir[0], specURLs, accepts);
      }
      if k > 0 {
        LoadReportsFirstFailure(LoadEntry(res, e, specURLs, accepts).resources, dir[1..], specURLs, accepts, k - 1);
      }
    }
  }

  /** A readable, accepted file without aliases aborts the loop with the "no aliases" error, once every earlier entry has loaded. */
  lemma LoadAbortsOnUnaliasedFile(res: map<string, seq<byte>>, dir: seq<DirEntry>,
                                  specURLs: map<string, seq<string>>, accepts: (string, seq<byte>) -> bool, k: nat)
    requires k < |dir|
    requires forall j :: 0 <= j < k ==> EntryLoads(dir[j], specURLs, accepts)
    requires !dir[k].isDir && dir[k].content.Some? && accepts(dir[k].name, dir[k].content.value)
    requires AliasesOf(specURLs, dir[k].name) == []
    ensures Load(res, dir, specURLs, accepts).err == Fail(NoAliases(dir[k].name))
  {
    LoadReportsFirstFailure(res, dir, specURLs, accepts, k);
  }

  /** A successful alias run stores the document under every URL and nowhere else. */
  lemma {:induction false} AddAliasesStores(res: map<string, seq<byte>>, file: string, urls: seq<string>,
                                            doc: seq<byte>, accepts: (string, seq<byte>) -> bool)
    requires AddAliases(res, file, urls, doc, accepts).err == Pass
    ensures var out := AddAliases(res, file, urls, doc, accepts).resources;
      && out.Keys == res.Keys + (set u | u in urls)
      && (forall u :: u in urls ==> out[u] == doc)
      && (forall key :: key in res && key !in urls ==> out[key] == res[key])
    decreases |urls|
  {
    if urls != [] {
      AddAliasesStores(res[urls[0] := doc], file, urls[1..], doc, accepts);
      assert forall u :: u in urls <==> u == urls[0] || u in urls[1..];
    }
  }

  /** A successful entry stores its document under its keys and leaves every other identifier alone. */
  lemma LoadEntryStores(res: map<string, seq<byte>>, e: DirEntry, specURLs: map<string, seq<string>>,
                        accepts: (string, seq<byte>) -> bool)
    requires LoadEntry(res, e, specURLs, accepts).err == Pass
    ensures var out := LoadEntry(res, e, specURLs, accepts).resources;
      && out.Keys == res.Keys + EntryKeys(e, specURLs)
      && Stored(out, e, specURLs)
      && (forall key :: key in res && key !in EntryKeys(e, specURLs) ==> out[key] == res[key])
  {
    if !e.isDir {
      AddAliasesStores(res[e.name := e.content.value], e.name, AliasesOf(specURLs, e.name), e.content.value, accepts);
    }
  }

  /** The identifiers of a listing are those of its first entry and those of the rest. */
  lemma DirKeysSplit(dir: seq<DirEntry>, specURLs: map<string, seq<string>>)
    requires dir != []
    ensures DirKeys(dir, specURLs) == EntryKeys(dir[0], specURLs) + DirKeys(dir[1..], specURLs)
  {
    var rest := dir[1..];
    forall u | u in DirKeys(dir, specURLs)
      ensures u in EntryKeys(dir[0], specURLs) + DirKeys(rest, specURLs)
    {
      var j :| 0 <= j < |dir| && u in EntryKeys(dir[j], specURLs);
      if j > 0 {
        assert rest[j - 1] == dir[j];
      }
    }
    forall u | u in DirKeys(rest, specURLs)
      ensures u in DirKeys(dir, specURLs)
    {
      var j :| 0 <= j < |rest| && u in EntryKeys(rest[j], specURLs);
      assert rest[j] == dir[j + 1];
    }
  }

  /** In an unambiguous listing the first entry shares no identifier with the rest, and the rest is unambiguous. */
  lemma UnambiguousSplit(dir: seq<DirEntry>, specURLs: map<string, seq<string>>)
    requires dir != [] && Unambiguous(dir, specURLs)
    ensures EntryKeys(dir[0], specURLs) !! DirKeys(dir[1..], specURLs)
    ensures Unambiguous(dir[1..], specURLs)
  {
    var rest := dir[1..];
    forall u | u in DirKeys(rest, specURLs)
      ensures u !in EntryKeys(dir[0], specURLs)
    {
      var j :| 0 <= j < |rest| && u in EntryKeys(rest[j], specURLs);
      assert rest[j] == dir[j + 1];
    }
    forall i, j | 0 <= i < j < |rest|
      ensures EntryKeys(rest[i], specURLs) !! EntryKeys(rest[j], specURLs)
    {
      assert rest[i] == dir[i + 1] && rest[j] == dir[j + 1];
    }
  }

  /** Identifiers outside an entry's keys keep their documents when the entry is stored later. */
  lemma StoredKept(r1: map<string, seq<byte>>, out: map<string, seq<byte>>, e: DirEntry, specURLs: map<string, seq<string>>)
    requires Stored(r1, e, specURLs)
    requires forall key :: key in r1 && key in EntryKeys(e, specURLs) ==> key in out && out[key] == r1[key]
    ensures Stored(out, e, specURLs)
  {
  }

  /**
   * After a successful loop every file's document is stored under its name and under each
   * of its aliases, the identifiers registered are exactly those, and nothing else changed.
   * Because a later registration replaces an earlier one, this needs no identifier to be
   * claimed by two files.
   */
  lemma {:induction false} LoadStoresEveryFile(res: map<string, seq<byte>>, dir: seq<DirEntry>,
                                               specURLs: map<string, seq<string>>, accepts: (string, seq<byte>) -> bool)
    requires Load(res, dir, specURLs, accepts).err == Pass
    requires Unambiguous(dir, specURLs)
    ensures var out := Load(res, dir, specURLs, accepts).resources;
      && out.Keys == res.Keys + DirKeys(dir, specURLs)
      && (forall k :: 0 <= k < |dir| ==> Stored(out, dir[k], specURLs))
      && (forall key :: key in res && key !in DirKeys(dir, specURLs) ==> out[key] == res[key])
    decreases |dir|
  {
    if dir != [] {
      var r1 := LoadEntry(res, dir[0], specURLs, accepts).resources;
      var rest := dir[1..];
      LoadEntryStores(res, dir[0], specURLs, accepts);
      UnambiguousSplit(dir, specURLs);
      DirKeysSplit(dir, specURLs);
      LoadStoresEveryFile(r1, rest, specURLs, accepts);
      var out := Load(r1, rest, specURLs, accepts).resources;
      assert out == Load(res, dir, specURLs, accepts).resources;
      StoredKept(r1, out, dir[0], specURLs);
      forall k | 0 < k < |dir|
        ensures Stored(out, dir[k], specURLs)
      {
        assert rest[k - 1] == dir[k];
      }
    }
  }
}
