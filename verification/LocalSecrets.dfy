/** Creating the local rehearsal secrets: all of them or none, in a directory that others
    may write to meanwhile. */
module LocalSecrets {
  import opened Orders
  import opened Wrappers

  type Name = string
  type Files = map<Name, string>

  /** Where making one file gives up, by an error or an interruption: in `os.open`; between
      that and its handler; in the handled writing; at setting the mode; or when the file is
      complete and only its entry in the list of created files is missing. */
  datatype Moment = Opening | Opened | Writing | SettingMode | Recording

  /** The file and the moment that fail, should the call get there. The number of files itself
      stands for the time after the last, when the handler is left and nothing is returned. */
  datatype Fault = Fault(at: nat, moment: Moment)

  // ---------- When a file stays behind ----------

  /** What is in a file that is left behind at a moment without a handler. */
  function Leftover(m: Moment, value: string): string {
    if m == Opened then "" else value + "\n"
  }

  ghost predicate AllFree(names: seq<Name>, files: Files) {
    forall n :: n in names ==> n !in files
  }

  /** Others write a file of this name before the call opens it. */
  ghost predicate Taken(names: seq<Name>, rivals: seq<Files>, k: nat)
    requires k < |names| == |rivals|
  {
    exists j :: 0 <= j <= k && names[k] in rivals[j]
  }

  /** The call opens the first `i` files. */
  ghost predicate Opens(names: seq<Name>, rivals: seq<Files>, i: nat)
    requires i <= |names| == |rivals|
  {
    forall k: nat :: k < i ==> !Taken(names, rivals, k)
  }

  /** The call gets as far as its fault, at a moment without a handler. */
  ghost predicate LeavesFile(names: seq<Name>, rivals: seq<Files>, fault: Option<Fault>, before: Files)
    requires |names| == |rivals|
  {
    && fault.Some? && fault.value.at < |names| && fault.value.moment in {Opened, SettingMode, Recording}
    && AllFree(names, before) && Opens(names, rivals, fault.value.at + 1)
  }

  /** The call is cut after all files are made, which no one removes any more. */
  ghost predicate LeavesAll(names: seq<Name>, rivals: seq<Files>, fault: Option<Fault>, before: Files)
    requires |names| == |rivals|
  {
    fault.Some? && fault.value.at == |names| > 0 && AllFree(names, before) && Opens(names, rivals, |names|)
  }

  ghost predicate SubFiles(some: Files, all: Files) {
    forall n :: n in some ==> n in all && all[n] == some[n]
  }

  /** All that others have put there is in what they brought. */
  ghost predicate Brought(rivals: seq<Files>, others: Files) {
    forall n :: n in others ==> exists r :: r in rivals && n in r && r[n] == others[n]
  }

  class Directory {
    var files: Files
    /** What others have put into the directory since the call began. */
    ghost var others: Files

    constructor (files: Files)
      ensures this.files == files && others == map[]
    {
      this.files, others := files, map[];
    }

    /** Others create files, under names that are free. */
    method Elsewhere(arrivals: Files) returns (ghost more: Files)
      modifies this
      ensures more == arrivals - old(files).Keys
      ensures files == old(files) + more && others == old(others) + more
    {
      more := arrivals - files.Keys;
      files := files + (arrivals - files.Keys);
      others := others + more;
    }

    /** `_write_secret`: creates the file exclusively, and takes it away again if writing it
        fails, but not if it is cut short before its handler or after. */
    method WriteSecret(name: Name, value: string, fault: Option<Moment>) returns (ok: bool)
      modifies this`files
      ensures ok <==> name !in old(files) && (fault.None? || fault.value == Recording)
      ensures name in old(files) ==> files == old(files)
      ensures fault in {Some(Opening), Some(Writing)} ==> files == old(files)
      ensures name !in old(files) && fault == Some(Opened) ==> files == old(files)[name := ""]
      ensures name !in old(files) && fault in {Some(SettingMode), Some(Recording), None} ==>
        files == old(files)[name := value + "\n"]
    {
      if name in files || fault == Some(Opening) { return false; }
      files := files[name := ""];
      if fault == Some(Opened) { return false; }
      if fault == Some(Writing) {
        files := files - {name};
        assert files == old(files);
        return false;
      }
      files := files[name := value + "\n"];
      return fault != Some(SettingMode);
    }

    /** `prepare_local_secrets`, where `rivals[i]` is what others write just before the file `i`
        is opened. A failed call leaves the directory as it was, together with what others put
        there, exactly unless it is cut short at a moment without a handler; then the one
        file made last stays behind, or all of them after the last. No file of others is ever changed or removed. */
    method Prepare(names: seq<Name>, values: seq<string>, rivals: seq<Files>, fault: Option<Fault>) returns (ok: bool)
      requires |names| == |values| == |rivals| && NoDuplicates(names) && others == map[]
      modifies this
      ensures ok <==>
        AllFree(names, old(files)) && Opens(names, rivals, |names|) && (fault.None? || fault.value.at > |names|)
      ensures ok || LeavesAll(names, rivals, fault, old(files)) ==>
        && files - Elements(names) == old(files) + others
        && forall i :: 0 <= i < |names| ==> names[i] in files && files[names[i]] == values[i] + "\n"
      ensures !ok ==> (files == old(files) + others <==>
        !LeavesFile(names, rivals, fault, old(files)) && !LeavesAll(names, rivals, fault, old(files)))
      ensures LeavesFile(names, rivals, fault, old(files)) ==>
        var i, m := fault.value.at, fault.value.moment;
        && !ok && names[i] !in old(files) + others
        && files == (old(files) + others)[names[i] := if m == Opened then "" else values[i] + "\n"]
      ensures fault.None? || (fault.value.at < |names| && fault.value.moment in {Opening, Writing}) ==>
        ok || files == old(files) + others
      ensures SubFiles(old(files), files) && SubFiles(others, files)
      ensures Brought(rivals, others)
      ensures !AllFree(names, old(files)) ==> files == old(files)
    {
      hide Midway, Waiting, Brought, Opens, NoDuplicates, Elements, LeavesFile, LeavesAll;
      ghost var before := files;
      MidwayStart(names, values, rivals, fault, files);
      HandledLeavesNothing(names, rivals, fault, files);
      if exists n :: n in names && n in files { return false; }
      var created: seq<Name> := [];
      var i := 0;
      while i < |names|
        invariant 0 <= i <= |names| && created == names[..i]
        invariant Midway(names, values, rivals, i, before, others, files)
        invariant fault.Some? ==> i <= fault.value.at
      {
        ghost var here, theirs := files, others;
        ghost var more := Elsewhere(rivals[i]);
        OthersCame(names, values, rivals, i, before, theirs, here, more);
        var moment := MomentAt(fault, i);
        ghost var opening := files;
        var written := WriteSecret(names[i], values[i], moment);
        if !written || moment == Some(Recording) {
          ghost var left := files;
          Rollback(created);
          Undone(names, values, rivals, fault, i, before, others, opening, left);
          return false;
        }
        OneMore(names, values, rivals, i, before, others, opening);
        created := created + [names[i]];
        assert created == names[..i + 1];
        i := i + 1;
      }
      assert names[..i] == names;
      Finished(names, values, rivals, fault, before, others, files);
      return !(fault.Some? && fault.value.at == |names|);
    }

    /** The `except` block: unlinks what this call has created. */
    method Rollback(created: seq<Name>)
      modifies this`files
      ensures files == old(files) - Elements(created)
    {
      for i := 0 to |created|
        invariant files == old(files) - Elements(created[..i])
      {
        assert created[..i + 1] == created[..i] + [created[i]];
        files := files - {created[i]};
      }
      assert created[..|created|] == created;
    }
  }

  function MomentAt(fault: Option<Fault>, i: nat): Option<Moment> {
    if fault.Some? && fault.value.at == i then Some(fault.value.moment) else None
  }

  // ---------- Half way through ----------

  /** The directory is as it was, with the files of others and the ones created so far. */
  ghost predicate Progress(before: Files, others: Files, created: seq<Name>, files: Files) {
    && before.Keys !! others.Keys
    && Elements(created) !! (before + others).Keys
    && files - Elements(created) == before + others
    && Elements(created) <= files.Keys
  }

  /** Of the names still to come, others have taken those that they wrote so far. */
  ghost predicate Arrived(names: seq<Name>, rivals: seq<Files>, first: nat, count: nat, others: Files)
    requires first <= |names| == |rivals| && count <= |rivals|
  {
    forall k :: first <= k < |names| ==>
      (names[k] in others <==> exists j :: 0 <= j < count && names[k] in rivals[j])
  }

  /** `i` files are made. */
  ghost predicate Midway(names: seq<Name>, values: seq<string>, rivals: seq<Files>, i: nat, before: Files,
                         others: Files, files: Files)
    requires i <= |names| == |rivals| == |values|
  {
    && Progress(before, others, names[..i], files)
    && AllFree(names, before) && Opens(names, rivals, i) && Arrived(names, rivals, i, i, others)
    && Brought(rivals, others)
    && forall k :: 0 <= k < i ==> names[k] in files && files[names[k]] == values[k] + "\n"
  }

  /** The same, after others have written and before file `i` is opened. */
  ghost predicate Waiting(names: seq<Name>, values: seq<string>, rivals: seq<Files>, i: nat, before: Files,
                          others: Files, files: Files)
    requires i < |names| == |rivals| == |values|
  {
    && Progress(before, others, names[..i], files)
    && AllFree(names, before) && Opens(names, rivals, i) && Arrived(names, rivals, i, i + 1, others)
    && Brought(rivals, others)
    && (names[i] in files <==> Taken(names, rivals, i))
    && names[i] !in names[..i]
    && forall k :: 0 <= k < i ==> names[k] in files && files[names[k]] == values[k] + "\n"
  }

  lemma HandledLeavesNothing(names: seq<Name>, rivals: seq<Files>, fault: Option<Fault>, before: Files)
    requires |names| == |rivals|
    ensures fault.None? || (fault.value.at < |names| && fault.value.moment in {Opening, Writing}) ==>
      !LeavesFile(names, rivals, fault, before) && !LeavesAll(names, rivals, fault, before)
  {
  }

  lemma MidwayStart(names: seq<Name>, values: seq<string>, rivals: seq<Files>, fault: Option<Fault>, files: Files)
    requires |names| == |rivals| == |values|
    ensures AllFree(names, files) ==> Midway(names, values, rivals, 0, files, map[], files)
    ensures !AllFree(names, files) ==> Brought(rivals, map[])
    ensures !AllFree(names, files) ==>
      !LeavesFile(names, rivals, fault, files) && !LeavesAll(names, rivals, fault, files)
    ensures files + map[] == files
  {
    assert files - Elements([]) == files;
  }

  lemma OthersCame(names: seq<Name>, values: seq<string>, rivals: seq<Files>, i: nat, before: Files, others: Files,
                   files: Files, more: Files)
    requires i < |names| == |rivals| == |values| && NoDuplicates(names)
    requires Midway(names, values, rivals, i, before, others, files) && more == rivals[i] - files.Keys
    ensures Waiting(names, values, rivals, i, before, others + more, files + more)
  {
    OthersAdd(before, others, names[..i], files, more);
    assert rivals[i] in rivals;
    forall k | i <= k < |names|
      ensures names[k] !in names[..i] && (names[k] in files <==> names[k] in others)
    {
      assert files.Keys == (before + others).Keys + Elements(names[..i]);
    }
    hide Progress, Opens, AllFree, NoDuplicates;
    assert forall k :: i <= k < |names| ==>
      (names[k] in others + more <==> names[k] in others || names[k] in rivals[i]);
  }

  lemma OthersAdd(before: Files, others: Files, created: seq<Name>, files: Files, more: Files)
    requires Progress(before, others, created, files) && more.Keys !! files.Keys
    ensures Progress(before, others + more, created, files + more)
    ensures files.Keys == (before + others).Keys + Elements(created)
  {
    assert (before + others).Keys == files.Keys - Elements(created);
    assert files + more - Elements(created) == before + (others + more);
  }

  lemma OneMore(names: seq<Name>, values: seq<string>, rivals: seq<Files>, i: nat, before: Files, others: Files,
                files: Files)
    requires i < |names| == |rivals| == |values|
    requires Waiting(names, values, rivals, i, before, others, files) && names[i] !in files
    ensures Midway(names, values, rivals, i + 1, before, others, files[names[i] := values[i] + "\n"])
  {
    var created := names[..i];
    assert names[..i + 1] == created + [names[i]];
    assert Elements(names[..i + 1]) == Elements(created) + {names[i]};
    assert (before + others).Keys == files.Keys - Elements(created);
    assert files[names[i] := values[i] + "\n"] - Elements(names[..i + 1]) == files - Elements(created);
    assert forall k :: 0 <= k < i ==> names[k] in created;
  }

  lemma OthersKept(before: Files, others: Files, files: Files)
    requires before.Keys !! others.Keys && SubFiles(before + others, files)
    ensures SubFiles(before, files) && SubFiles(others, files)
  {
    assert forall n :: n in others ==> (before + others)[n] == others[n];
    assert forall n :: n in before ==> (before + others)[n] == before[n];
  }

  /** After the rollback: what `left` holds when file `i` has failed, without the files made
      earlier. One file too many is there exactly if its moment has no handler. */
  lemma Undone(names: seq<Name>, values: seq<string>, rivals: seq<Files>, fault: Option<Fault>, i: nat,
               before: Files, others: Files, files: Files, left: Files)
    requires i < |names| == |rivals| == |values| && Waiting(names, values, rivals, i, before, others, files)
    requires fault.Some? ==> i <= fault.value.at
    requires names[i] in files || MomentAt(fault, i).Some?
    requires left == if names[i] !in files && fault.value.moment in {Opened, SettingMode, Recording}
                     then files[names[i] := Leftover(fault.value.moment, values[i])] else files
    ensures var now := left - Elements(names[..i]);
      && AllFree(names, before) && !(Opens(names, rivals, |names|) && (fault.None? || fault.value.at >= |names|))
      && !LeavesAll(names, rivals, fault, before)
      && (now == before + others <==> !LeavesFile(names, rivals, fault, before))
      && (LeavesFile(names, rivals, fault, before) ==>
            fault.value.at == i && names[i] !in before + others
            && now == (before + others)[names[i] := Leftover(fault.value.moment, values[i])])
      && SubFiles(before, now) && SubFiles(others, now) && Brought(rivals, others)
  {
    var created, now := names[..i], left - Elements(names[..i]);
    assert (before + others).Keys == files.Keys - Elements(created);
    if names[i] in files {
      assert now == before + others;
      assert Taken(names, rivals, i);
    } else {
      var content := Leftover(fault.value.moment, values[i]);
      assert files[names[i] := content] - Elements(created) == (before + others)[names[i] := content];
      assert names[i] in (before + others)[names[i] := content];
    }
    OthersKept(before, others, now);
  }

  lemma Finished(names: seq<Name>, values: seq<string>, rivals: seq<Files>, fault: Option<Fault>, before: Files,
                 others: Files, files: Files)
    requires |names| == |rivals| == |values| && Midway(names, values, rivals, |names|, before, others, files)
    ensures AllFree(names, before) && Opens(names, rivals, |names|) && Brought(rivals, others)
    ensures fault.None? || fault.value.at >= |names| ==> !LeavesFile(names, rivals, fault, before)
    ensures LeavesAll(names, rivals, fault, before) <==> fault.Some? && fault.value.at == |names| > 0
    ensures files == before + others <==> names == []
    ensures files - Elements(names) == before + others && SubFiles(before, files) && SubFiles(others, files)
    ensures forall k :: 0 <= k < |names| ==> names[k] in files && files[names[k]] == values[k] + "\n"
  {
    assert names[..|names|] == names;
    assert names != [] ==> names[0] in files && names[0] in Elements(names);
    assert Elements<Name>([]) == {} && files - {} == files;
    assert forall n :: n in before + others ==> n in files - Elements(names);
    OthersKept(before, others, files);
  }

  /** A mode that cannot be set, in an empty directory: the complete secret stays. */
  method ModeFailureLeavesFile() returns (directory: Directory, ok: bool)
    ensures fresh(directory) && !ok && directory.files == map["key" := "secret\n"]
  {
    directory := new Directory(map[]);
    var rivals: seq<Files> := [map[]];
    var fault := Some(Fault(0, SettingMode));
    assert LeavesFile(["key"], rivals, fault, map[]);
    ok := directory.Prepare(["key"], ["secret"], rivals, fault);
    assert directory.others == map[] && "secret" + "\n" == "secret\n";
    assert directory.files == (map[] + directory.others)["key" := "secret" + "\n"];
  }
}
