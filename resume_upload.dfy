/**
 * The upload form's selection list: dropped or picked files are filtered by MIME type and
 * appended, the list is capped at `MaxFiles`, and single files can be removed, the whole
 * list cleared, or the list handed over as one batch.
 */
module ResumeUpload {
  import opened Wrappers
  import opened Seqs

  /** `MAX_FILES`. */
  const MaxFiles: nat := 30

  /** A file offered by the browser: its name and its MIME type. */
  datatype SelectedFile = SelectedFile(name: string, fileType: string)

  /** The accepted MIME types: PDF, legacy Word, Word (OOXML) and plain text. */
  const ValidTypes: seq<string> := [
    "application/pdf",
    "application/msword",
    "application/vnd.openxmlformats-officedocument.wordprocessingml.document",
    "text/plain"
  ]

  /** `isValidFileType`: the file's type is one of the accepted ones. */
  predicate IsValidFileType(f: SelectedFile)
  {
    f.fileType in ValidTypes
  }

  function IsValid(): SelectedFile -> bool
  {
    f => IsValidFileType(f)
  }

  /** Exactly the four accepted types pass, and anything else is refused. */
  lemma ValidTypesAreTheFour(f: SelectedFile)
    ensures IsValidFileType(f) <==>
      f.fileType == "application/pdf" || f.fileType == "application/msword"
      || f.fileType == "application/vnd.openxmlformats-officedocument.wordprocessingml.document"
      || f.fileType == "text/plain"
  {
  }

  /** `files.filter(isValidFileType).slice(0, MAX_FILES)`. */
  function ValidFiles(files: seq<SelectedFile>): seq<SelectedFile>
  {
    Take(Filter(files, IsValid()), MaxFiles)
  }

  /**
   * The selection after a drop or a file-input change: unchanged when no offered file is
   * valid, otherwise the valid ones appended and the whole list cut to `MaxFiles`.
   */
  function AfterAdd(prev: seq<SelectedFile>, files: seq<SelectedFile>): seq<SelectedFile>
  {
    var valid := ValidFiles(files);
    if |valid| > 0 then Take(prev + valid, MaxFiles) else prev
  }

  /** Every file of the selection has an accepted type, and there are at most `MaxFiles`. */
  ghost predicate WellFormedSelection(s: seq<SelectedFile>)
  {
    |s| <= MaxFiles && forall i :: 0 <= i < |s| ==> IsValidFileType(s[i])
  }

  /**
   * Adding keeps the selection well formed, leaves it unchanged when no offered file is
   * valid, and otherwise yields the old selection followed by the valid offered files in
   * their order, cut to `MaxFiles` (so the cap on the offered files alone changes nothing).
   */
  lemma AfterAddProperties(prev: seq<SelectedFile>, files: seq<SelectedFile>)
    requires WellFormedSelection(prev)
    ensures WellFormedSelection(AfterAdd(prev, files))
    ensures (forall i :: 0 <= i < |files| ==> !IsValidFileType(files[i])) ==> AfterAdd(prev, files) == prev
    ensures (exists i :: 0 <= i < |files| && IsValidFileType(files[i])) ==>
      AfterAdd(prev, files) == Take(prev + Filter(files, IsValid()), MaxFiles)
    ensures |AfterAdd(prev, files)| >= |prev| && AfterAdd(prev, files)[..|prev|] == prev
  {
    var all := Filter(files, IsValid());
    var valid := ValidFiles(files);
    forall x | x in all ensures IsValidFileType(x) {
      FilterMembership(files, IsValid(), x);
    }
    if forall i :: 0 <= i < |files| ==> !IsValidFileType(files[i]) {
      FilterNone(files, IsValid());
      assert valid == [];
    }
    if exists i :: 0 <= i < |files| && IsValidFileType(files[i]) {
      var i :| 0 <= i < |files| && IsValidFileType(files[i]);
      FilterMembership(files, IsValid(), files[i]);
      assert |all| > 0 && |valid| > 0;
      CapIsRedundant(prev, all);
    }
    var r := AfterAdd(prev, files);
    if |valid| > 0 {
      assert r == (prev + valid)[..Min(|prev + valid|, MaxFiles)];
      forall i | 0 <= i < |r| ensures IsValidFileType(r[i]) {
        if i >= |prev| {
          assert r[i] == valid[i - |prev|] == all[i - |prev|];
          assert r[i] in all;
        }
      }
      assert r[..|prev|] == prev;
    }
  }

  /** Capping the appended files first does not change the capped concatenation. */
  lemma CapIsRedundant(prev: seq<SelectedFile>, all: seq<SelectedFile>)
    ensures Take(prev + Take(all, MaxFiles), MaxFiles) == Take(prev + all, MaxFiles)
  {
    var t := Take(all, MaxFiles);
    var n := Min(|prev + t|, MaxFiles);
    assert n == Min(|prev + all|, MaxFiles);
    forall k | 0 <= k < n ensures (prev + t)[k] == (prev + all)[k] {
      if k >= |prev| {
        assert t[k - |prev|] == all[k - |prev|];
      }
    }
    assert Take(prev + t, MaxFiles) == (prev + t)[..n];
    assert Take(prev + all, MaxFiles) == (prev + all)[..n];
  }

  /** `prev.filter((_, i) => i !== index)`: the element at `index` dropped, if there is one. */
  function RemoveAt(s: seq<SelectedFile>, index: int): seq<SelectedFile>
  {
    if 0 <= index < |s| then s[..index] + s[index + 1..] else s
  }

  /**
   * Removing drops exactly the element at `index` and keeps the others in order; an index
   * outside the list changes nothing. A well-formed selection stays well formed.
   */
  lemma RemoveAtProperties(s: seq<SelectedFile>, index: int)
    ensures 0 <= index < |s| ==>
      && |RemoveAt(s, index)| == |s| - 1
      && (forall k :: 0 <= k < index ==> RemoveAt(s, index)[k] == s[k])
      && (forall k :: index <= k < |s| - 1 ==> RemoveAt(s, index)[k] == s[k + 1])
    ensures !(0 <= index < |s|) ==> RemoveAt(s, index) == s
    ensures WellFormedSelection(s) ==> WellFormedSelection(RemoveAt(s, index))
  {
    if 0 <= index < |s| && WellFormedSelection(s) {
      var r := RemoveAt(s, index);
      forall k | 0 <= k < |r| ensures IsValidFileType(r[k]) {
        if k < index {
          assert r[k] == s[k];
        } else {
          assert r[k] == s[k + 1];
        }
      }
    }
  }

  /** The state of the upload form: the files selected so far. */
  class UploadSelection {
    var selected: seq<SelectedFile>

    ghost predicate Valid()
      reads this
    {
      WellFormedSelection(selected)
    }

    constructor()
      ensures Valid() && selected == []
    {
      selected := [];
    }

    /** `handleDrop` and `handleFileInput` once the offered files are known. */
    method AddFiles(files: seq<SelectedFile>)
      requires Valid()
      modifies this
      ensures Valid()
      ensures selected == AfterAdd(old(selected), files)
    {
      AfterAddProperties(selected, files);
      var valid := ValidFiles(files);
      if |valid| > 0 {
        var combined := selected + valid;
        selected := Take(combined, MaxFiles);
      }
    }

    /** `removeFile`. */
    method RemoveFile(index: int)
      requires Valid()
      modifies this
      ensures Valid()
      ensures selected == RemoveAt(old(selected), index)
    {
      RemoveAtProperties(selected, index);
      selected := RemoveAt(selected, index);
    }

    /** `clearAll`. */
    method ClearAll()
      modifies this
      ensures Valid() && selected == []
    {
      selected := [];
    }

    /**
     * `handleSubmit`: a non-empty selection is handed over as the batch and the list is
     * emptied; an empty selection hands over nothing and stays as it is.
     */
    method Submit() returns (batch: Option<seq<SelectedFile>>)
      requires Valid()
      modifies this
      ensures Valid()
      ensures old(selected) != [] ==> batch == Some(old(selected)) && selected == []
      ensures old(selected) == [] ==> batch == None && selected == old(selected)
    {
      if |selected| > 0 {
        batch := Some(selected);
        selected := [];
      } else {
        batch := None;
      }
    }
  }
}
