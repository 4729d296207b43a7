/** The file list of the upload area: a drop appends the accepted files to
    the current list, and removing a file rebuilds the list without the
    file at one index. Each operation builds a fresh list one file at a
    time and hands it to `onFilesChange`; `None` for the list stands for
    `undefined`, and a `None` result means `onFilesChange` is not called. */
module FileUpload {
  import opened Common

  /** The current list, an undefined one read as empty. */
  function ExistingFiles<F>(files: Option<seq<F>>): seq<F> {
    if files.Some? then files.value else []
  }

  /** `fs` without the element at `index`; an index out of range removes
      nothing. */
  function Without<F>(fs: seq<F>, index: int): seq<F> {
    if 0 <= index < |fs| then fs[..index] + fs[index + 1..] else fs
  }

  /** `onDrop(acceptedFiles)`. */
  method OnDrop<F>(files: Option<seq<F>>, acceptedFiles: seq<F>) returns (changed: Option<seq<F>>)
    ensures |acceptedFiles| == 0 ==> changed == None
    ensures |acceptedFiles| > 0 ==> changed == Some(ExistingFiles(files) + acceptedFiles)
  {
    if |acceptedFiles| == 0 {
      return None;
    }
    var dt: seq<F> := [];
    if files.Some? {
      var existing := files.value;
      for i := 0 to |existing|
        invariant dt == existing[..i]
      {
        dt := dt + [existing[i]];
      }
      assert existing[..|existing|] == existing;
    }
    var before := dt;
    for i := 0 to |acceptedFiles|
      invariant dt == before + acceptedFiles[..i]
    {
      dt := dt + [acceptedFiles[i]];
      assert acceptedFiles[..i + 1] == acceptedFiles[..i] + [acceptedFiles[i]];
    }
    assert acceptedFiles[..|acceptedFiles|] == acceptedFiles;
    changed := Some(dt);
  }

  /** The files among the first `k` whose index is not `index`. */
  function KeptBefore<F>(fs: seq<F>, index: int, k: nat): seq<F>
    requires k <= |fs|
  {
    if 0 <= index < k then fs[..index] + fs[index + 1..k] else fs[..k]
  }

  /** `removeFile(indexToRemove)`. */
  method RemoveFile<F>(files: Option<seq<F>>, indexToRemove: int) returns (changed: Option<seq<F>>)
    ensures files.None? ==> changed == None
    ensures files.Some? ==> changed == Some(Without(files.value, indexToRemove))
  {
    if files.None? {
      return None;
    }
    var fs := files.value;
    var dt: seq<F> := [];
    for index := 0 to |fs|
      invariant dt == KeptBefore(fs, indexToRemove, index)
    {
      if index != indexToRemove {
        dt := dt + [fs[index]];
      }
      if 0 <= indexToRemove < index {
        assert fs[indexToRemove + 1..index + 1] == fs[indexToRemove + 1..index] + [fs[index]];
      } else if index != indexToRemove {
        assert fs[..index + 1] == fs[..index] + [fs[index]];
      } else {
        assert fs[index + 1..index + 1] == [];
      }
    }
    assert fs[..|fs|] == fs;
    changed := Some(dt);
  }

  /** Removing at an index in range gives a list one shorter that keeps
      the other files in their order and loses exactly that one; an index
      out of range gives the same list. */
  lemma WithoutShape<F>(fs: seq<F>, index: int)
    ensures 0 <= index < |fs| ==>
      && |Without(fs, index)| == |fs| - 1
      && (forall j :: 0 <= j < index ==> Without(fs, index)[j] == fs[j])
      && (forall j :: index <= j < |fs| - 1 ==> Without(fs, index)[j] == fs[j + 1])
      && multiset(Without(fs, index)) + multiset{fs[index]} == multiset(fs)
    ensures !(0 <= index < |fs|) ==> Without(fs, index) == fs
  {
    if 0 <= index < |fs| {
      assert fs == fs[..index] + [fs[index]] + fs[index + 1..];
    }
  }

  /** Removing the last file of a drop of one file gives back the list
      before the drop. */
  lemma RemoveUndoesDrop<F>(files: Option<seq<F>>, f: F)
    ensures Without(ExistingFiles(files) + [f], |ExistingFiles(files)|) == ExistingFiles(files)
  {
    var fs := ExistingFiles(files);
    assert (fs + [f])[..|fs|] == fs;
  }
}
