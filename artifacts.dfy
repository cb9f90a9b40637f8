/** File names derived from identifiers: the identifier of an input file
    (`generate_id_table`), the file an item's module writes
    (`outputID + EXTENSIONS[type_output]`) and the rule that skips a module
    whose work is in progress or done. */
module Artifacts {
  import opened Wrappers
  import opened Strings

  /** `fn[len(input_dir) + 1:].replace('/', '_')[:-len(fn.split('.')[-1]) - 1]`:
      the path below `input_dir`, with directories joined by '_', and without its
      final extension. */
  function IdFromPath(inputDir: string, fn: string): (id: string)
    ensures forall k :: 0 <= k < |id| ==> id[k] != '/'
    ensures |id| <= |fn|
  {
    var rel := ReplaceChar(SliceFrom(fn, |inputDir| + 1), '/', '_');
    SliceTo(rel, -|LastPiece(fn, '.')| - 1)
  }

  /** For `input_dir/rel.ext` the identifier is `rel` with every '/' turned into '_'. */
  lemma IdOfPath(inputDir: string, rel: string, ext: string)
    requires forall k :: 0 <= k < |ext| ==> ext[k] != '.'
    ensures IdFromPath(inputDir, inputDir + "/" + rel + "." + ext) == ReplaceChar(rel, '/', '_')
  {
    LastPieceOfSuffix(inputDir + "/" + rel, ext);
    BelowDir(inputDir, rel, ext);
    DropExtension(rel, ext);
  }

  /** The path below `input_dir/` is `rel.ext`. */
  lemma BelowDir(inputDir: string, rel: string, ext: string)
    ensures SliceFrom(inputDir + "/" + rel + "." + ext, |inputDir| + 1) == rel + "." + ext
  {
    assert inputDir + "/" + rel + "." + ext == (inputDir + "/") + (rel + "." + ext);
    assert ((inputDir + "/") + (rel + "." + ext))[|inputDir| + 1..] == rel + "." + ext;
  }

  /** Dropping the extension and its dot after the replacement leaves the replaced `rel`. */
  lemma DropExtension(rel: string, ext: string)
    ensures SliceTo(ReplaceChar(rel + "." + ext, '/', '_'), -|ext| - 1) == ReplaceChar(rel, '/', '_')
  {
    var t := rel + "." + ext;
    assert t[..|rel|] == rel;
    ReplaceCharPrefix(t, |rel|);
  }

  lemma {:induction false} ReplaceCharPrefix(s: string, n: nat)
    requires n <= |s|
    ensures ReplaceChar(s, '/', '_')[..n] == ReplaceChar(s[..n], '/', '_')
  {
    if n == |s| {
      assert s[..n] == s;
    } else {
      var init := s[..|s| - 1];
      ReplaceCharPrefix(init, n);
      assert init[..n] == s[..n];
      var c := if s[|s| - 1] == '/' then '_' else s[|s| - 1];
      assert ReplaceChar(s, '/', '_') == ReplaceChar(init, '/', '_') + [c];
      assert (ReplaceChar(init, '/', '_') + [c])[..n] == ReplaceChar(init, '/', '_')[..n];
    }
  }

  lemma {:induction false} LastPieceOfSuffix(prefix: string, ext: string)
    requires forall k :: 0 <= k < |ext| ==> ext[k] != '.'
    ensures LastPiece(prefix + "." + ext, '.') == ext
  {
    var s := prefix + "." + ext;
    if ext != [] {
      var init := ext[..|ext| - 1];
      LastPieceOfSuffix(prefix, init);
      assert s[..|s| - 1] == prefix + "." + init;
    }
  }

  /** A path without any '.' yields the empty identifier: the whole path counts
      as the extension and the slice removes everything. */
  lemma IdWithoutDot(inputDir: string, fn: string)
    requires forall k :: 0 <= k < |fn| ==> fn[k] != '.'
    ensures IdFromPath(inputDir, fn) == ""
  {
    assert LastPiece(fn, '.') == fn;
  }

  /** The identifier table: one row `(ID, Filename)` per walked file, in walk order. */
  method GenerateIdTable(inputDir: string, files: seq<string>) returns (table: seq<(string, string)>)
    ensures |table| == |files|
    ensures forall k :: 0 <= k < |files| ==> table[k].1 == files[k] && table[k].0 == IdFromPath(inputDir, files[k])
  {
    var ids: seq<string> := [];
    for k := 0 to |files|
      invariant |ids| == k && forall j :: 0 <= j < k ==> ids[j] == IdFromPath(inputDir, files[j])
    {
      ids := ids + [IdFromPath(inputDir, files[k])];
    }
    table := seq(|files|, k requires 0 <= k < |files| => (ids[k], files[k]));
  }

  /** `EXTENSIONS`: the file extension of each output type. */
  function Extension(typeOutput: string): (r: Option<string>)
    ensures r.Some? <==> typeOutput in ["image", "stat", "folder", "file", "data", "model"]
    ensures r == Some("") <==> typeOutput in ["folder", "file", "model"]
    ensures r == Some(".tif") <==> typeOutput == "image"
    ensures r == Some(".csv") <==> typeOutput == "stat"
    ensures r == Some(".npz") <==> typeOutput == "data"
  {
    if typeOutput == "image" then Some(".tif")
    else if typeOutput == "stat" then Some(".csv")
    else if typeOutput == "folder" then Some("")
    else if typeOutput == "file" then Some("")
    else if typeOutput == "data" then Some(".npz")
    else if typeOutput == "model" then Some("")
    else None
  }

  /** The name of the file a module writes: its `outputID` followed by the
      extension of its output type; an unknown type is a KeyError. */
  function ArtifactName(outputID: string, typeOutput: string): (r: Result<string>)
    ensures r.Err? <==> Extension(typeOutput).None?
    ensures r.Err? ==> r.error == Error(KeyError, MissingKey(typeOutput))
    ensures r.Ok? ==> r.value == outputID + Extension(typeOutput).value
    ensures r.Ok? ==> |outputID| <= |r.value| <= |outputID| + 4 && r.value[..|outputID|] == outputID
    ensures typeOutput in ["folder", "file", "model"] ==> r == Ok(outputID)
  {
    match Extension(typeOutput)
    case None => Err(Error(KeyError, MissingKey(typeOutput)))
    case Some(ext) =>
      assert ext == "" ==> outputID + ext == outputID;
      Ok(outputID + ext)
  }

  /** Within one output type, distinct identifiers give distinct file names; the
      `number` output type of evaluation modules has no extension entry. */
  lemma ArtifactNamesDistinct(id1: string, id2: string, typeOutput: string)
    requires id1 != id2 && Extension(typeOutput).Some?
    ensures ArtifactName(id1, typeOutput) != ArtifactName(id2, typeOutput)
    ensures ArtifactName(id1, "number").Err?
  {
    var ext := Extension(typeOutput).value;
    if |id1| == |id2| {
      assert (id1 + ext)[..|id1|] == id1 && (id2 + ext)[..|id2|] == id2;
    }
  }

  /** A module is skipped when its lock file exists (another worker is on it) or
      when its output exists, except for `Organize`, which always runs. */
  predicate Skips(name: string, lockExists: bool, outputExists: bool)
  {
    lockExists || (outputExists && name != "Organize")
  }

  /** `Organize` is skipped only while locked; any other module runs only when
      neither the lock nor the output exists. */
  lemma SkipRule(name: string, lockExists: bool, outputExists: bool)
    ensures name == "Organize" ==> (Skips(name, lockExists, outputExists) <==> lockExists)
    ensures name != "Organize" ==> (!Skips(name, lockExists, outputExists) <==> !lockExists && !outputExists)
  {
  }
}
