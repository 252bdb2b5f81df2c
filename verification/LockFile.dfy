/** The dependency lock: the streaming validator, and the later reader of its pins. */
module LockFile {
  import opened Wrappers

  const ORIGIN_MARK: string := "autogenerated by pip-compile with Python 3.12"
  const BINARY_MARK: string := "--only-binary :all:"
  const PIN: string := "=="
  const HASH_MARK: string := "--hash=sha256:"
  const MINIMUM_PACKAGES: nat := 10

  predicate At(text: string, part: string, i: nat) {
    i + |part| <= |text| && text[i..i + |part|] == part
  }

  /** `part in text`. */
  predicate Contains(text: string, part: string) {
    exists i: nat :: i <= |text| && At(text, part, i)
  }

  /** `str.isspace` on one character. */
  predicate IsSpace(c: char) {
    || c in "\t\n\r \U{000B}\U{000C}\U{001C}\U{001D}\U{001E}\U{001F}\U{0085}\U{00A0}\U{1680}"
    || '\U{2000}' <= c <= '\U{200A}'
    || c in "\U{2028}\U{2029}\U{202F}\U{205F}\U{3000}"
  }

  predicate StartsWith(line: string, part: string) {
    part <= line
  }

  predicate IsDeclaration(line: string) {
    line != "" && !IsSpace(line[0]) && !StartsWith(line, "#") && !StartsWith(line, "--")
  }

  /** `part` stands in the text if and only if the text is something, then `part`, then something. */
  lemma ContainsMeans(text: string, part: string)
    ensures Contains(text, part) <==> exists before: string, after: string :: text == Around(before, part, after)
  {
    if i: nat :| i <= |text| && At(text, part, i) {
      assert text == Around(text[..i], part, text[i + |part|..]);
    }
    if before: string, after: string :| text == Around(before, part, after) {
      assert text[|before|..|before| + |part|] == part;
      assert At(text, part, |before|);
    }
  }

  ghost function Around(before: string, part: string, after: string): string {
    before + part + after
  }

  /** A declaration starts with neither white space nor a comment sign nor two dashes. White
      space are the separating control characters, the blank, and the spaces of Unicode. */
  lemma DeclarationMeans(line: string)
    ensures IsDeclaration(line) <==>
      |line| > 0 && !IsSpace(line[0]) && line[0] != '#' && !(|line| > 1 && line[0] == '-' && line[1] == '-')
    ensures forall c: char :: IsSpace(c) <==>
      || '\t' <= c <= '\r' || '\U{001C}' <= c <= ' ' || '\U{2000}' <= c <= '\U{200A}' || '\U{2028}' <= c <= '\U{2029}'
      || c == '\U{0085}' || c == '\U{00A0}' || c == '\U{1680}' || c == '\U{202F}' || c == '\U{205F}' || c == '\U{3000}'
  {
    assert |line| > 1 ==> line[..2] == [line[0], line[1]];
    assert |line| > 0 ==> line[..1] == [line[0]];
  }

  datatype LockError =
    | NoOrigin
    | SourceAllowed
    | NotPinned(declaration: string)
    | NoHash(declaration: string)
    | Incomplete

  // ---------- What a valid lock is ----------

  /** Line `j` belongs to the declaration on line `i`: no other declaration comes between. */
  ghost predicate InBlock(lines: seq<string>, i: nat, j: nat) {
    i <= j < |lines| && forall k :: i < k <= j ==> !IsDeclaration(lines[k])
  }

  ghost predicate Hashed(lines: seq<string>, i: nat) {
    exists j: nat :: InBlock(lines, i, j) && Contains(lines[j], "--hash=sha256:")
  }

  ghost predicate Sound(lines: seq<string>, i: nat)
    requires i < |lines|
  {
    IsDeclaration(lines[i]) ==> Contains(lines[i], "==") && Hashed(lines, i)
  }

  /** The lines that are declarations, in order. */
  ghost function Starts(lines: seq<string>): (starts: seq<nat>)
    ensures forall n :: 0 <= n < |starts| ==> starts[n] < |lines|
    ensures forall n, m :: 0 <= n < m < |starts| ==> starts[n] < starts[m]
  {
    if lines == [] then []
    else Starts(lines[..|lines| - 1]) + if IsDeclaration(lines[|lines| - 1]) then [|lines| - 1] else []
  }

  ghost function Declarations(lines: seq<string>): nat {
    |Starts(lines)|
  }

  /** The lines from each declaration up to the next, or to the end. */
  ghost function Blocks(lines: seq<string>): seq<seq<string>> {
    var starts := Starts(lines);
    seq(|starts|, n requires 0 <= n < |starts| =>
      if n + 1 < |starts| then lines[starts[n]..starts[n + 1]] else lines[starts[n]..])
  }

  /** The declarations of a first part are the first declarations. */
  lemma {:induction false} StartsSplit(lines: seq<string>, i: nat)
    requires i <= |lines|
    ensures Starts(lines[..i]) <= Starts(lines)
    ensures i < |lines| && IsDeclaration(lines[i]) ==>
      var m := |Starts(lines[..i])|; m < |Starts(lines)| && Starts(lines)[m] == i
    ensures i < |lines| ==> Starts(lines[..i + 1]) == Starts(lines[..i]) + if IsDeclaration(lines[i]) then [i] else []
    decreases |lines| - i
  {
    if i == |lines| {
      assert lines[..i] == lines;
    } else {
      assert lines[..i + 1][..i] == lines[..i];
      if i + 1 < |lines| {
        StartsSplit(lines, i + 1);
      } else {
        assert lines[..i + 1] == lines;
      }
    }
    assert i < |lines| && IsDeclaration(lines[i]) ==> Starts(lines[..i + 1])[|Starts(lines[..i])|] == i;
  }

  ghost predicate Accepts(text: string, lines: seq<string>) {
    && Contains(text, "autogenerated by pip-compile with Python 3.12") && Contains(text, "--only-binary :all:")
    && Declarations(lines) >= 10
    && forall i: nat :: i < |lines| ==> Sound(lines, i)
  }

  // ---------- `_validate_lock` ----------

  /** `_validate_locked_requirement`; `log` lists the blocks it was called with. */
  method ValidateRequirement(block: seq<string>, ghost log: seq<seq<string>>)
    returns (r: Result<(), LockError>, ghost checked: seq<seq<string>>)
    requires block != []
    ensures checked == log + [block]
    ensures r == if !Contains(block[0], PIN) then Err(NotPinned(block[0]))
                 else if exists j: nat :: j < |block| && Contains(block[j], HASH_MARK) then Ok(())
                 else Err(NoHash(block[0]))
  {
    checked := log + [block];
    if !Contains(block[0], PIN) { return Err(NotPinned(block[0])), checked; }
    if !exists j: nat :: j < |block| && Contains(block[j], HASH_MARK) { return Err(NoHash(block[0])), checked; }
    return Ok(()), checked;
  }

  /** The open block starts at `start` and runs to line `i`. */
  ghost predicate OpenBlock(lines: seq<string>, start: nat, i: nat, block: seq<string>) {
    && start < i <= |lines| && block == lines[start..i] && IsDeclaration(lines[start])
    && forall k :: start < k < i ==> !IsDeclaration(lines[k])
  }

  /** The end of a block settles its declaration: the next line is another one, or there is none. */
  lemma BlockSettles(lines: seq<string>, start: nat, i: nat, block: seq<string>)
    requires OpenBlock(lines, start, i, block) && (i == |lines| || IsDeclaration(lines[i]))
    ensures Hashed(lines, start) <==> exists j: nat :: j < |block| && Contains(block[j], HASH_MARK)
  {
    if j: nat :| j < |block| && Contains(block[j], HASH_MARK) {
      assert block[j] == lines[start + j];
      assert InBlock(lines, start, start + j);
    }
    if j: nat :| InBlock(lines, start, j) && Contains(lines[j], HASH_MARK) {
      assert j < i;
      assert block[j - start] == lines[j];
    }
  }

  /** The one pass over the lines: it accepts exactly the valid locks, after checking each
      block exactly once, in order; otherwise it names a declaration that is at fault, and has
      checked the blocks up to it. The empty line the source appends is part of `lines`. */
  method ValidateLock(text: string, lines: seq<string>)
    returns (r: Result<nat, LockError>, ghost checked: seq<seq<string>>)
    requires lines != [] && lines[|lines| - 1] == ""
    ensures r.Ok? <==> Accepts(text, lines)
    ensures r.Ok? ==> r.value == Declarations(lines) && checked == Blocks(lines)
    ensures checked <= Blocks(lines)
    ensures r.Err? && r.error.NotPinned? ==>
      exists i: nat :: i < |lines| && IsDeclaration(lines[i]) && lines[i] == r.error.declaration
        && !Contains(lines[i], PIN)
    ensures r.Err? && r.error.NoHash? ==>
      exists i: nat :: i < |lines| && IsDeclaration(lines[i]) && lines[i] == r.error.declaration && !Hashed(lines, i)
    ensures r.Err? && (r.error.NotPinned? || r.error.NoHash?) ==>
      checked != [] && checked[|checked| - 1][0] == r.error.declaration
  {
    hide Contains, IsDeclaration, Pass, Hashed, Sound, Starts, Blocks;
    checked := [];
    if !Contains(text, ORIGIN_MARK) { return Err(NoOrigin), checked; }
    if !Contains(text, BINARY_MARK) { return Err(SourceAllowed), checked; }
    var packageCount := 0;
    var current: seq<string> := [];
    ghost var start: nat := 0;
    PassStart(lines);
    for i := 0 to |lines|
      invariant Pass(lines, i, start, current, packageCount, checked)
    {
      var line := lines[i];
      if IsDeclaration(line) {
        ghost var before := checked;
        if current != [] {
          var verdict;
          verdict, checked := CheckOpenBlock(current, lines, i, start, packageCount, checked);
          if verdict.Err? { return Err(verdict.error), checked; }
        }
        PassDeclaration(lines, i, start, current, packageCount, before, checked);
        current, start := [line], i;
        packageCount := packageCount + 1;
      } else {
        PassOther(lines, i, start, current, packageCount, checked);
        if current != [] { current := current + [line]; }
      }
    }
    ghost var before := checked;
    if current != [] {
      var verdict;
      verdict, checked := CheckOpenBlock(current, lines, |lines|, start, packageCount, checked);
      if verdict.Err? { return Err(verdict.error), checked; }
    }
    PassEnd(lines, start, current, packageCount, before, checked);
    if packageCount < MINIMUM_PACKAGES { return Err(Incomplete), checked; }
    return Ok(packageCount), checked;
  }

  /** Before line `i`: `count` declarations have been met, the block of the last is open, and
      the earlier ones are sound and have been checked. */
  ghost predicate Pass(lines: seq<string>, i: nat, start: nat, current: seq<string>, count: nat,
                       checked: seq<seq<string>>)
  {
    && i <= |lines| && count == |Starts(lines[..i])| <= Declarations(lines)
    && if current == [] then count == 0 && checked == [] && forall k: nat :: k < i ==> !IsDeclaration(lines[k])
       else
         && OpenBlock(lines, start, i, current) && (forall k: nat :: k < start ==> Sound(lines, k))
         && count > 0 && Starts(lines)[count - 1] == start && checked == Blocks(lines)[..count - 1]
  }

  lemma PassStart(lines: seq<string>)
    ensures Pass(lines, 0, 0, [], 0, [])
  {
  }

  lemma PassDeclaration(lines: seq<string>, i: nat, start: nat, current: seq<string>, count: nat,
                        before: seq<seq<string>>, checked: seq<seq<string>>)
    requires Pass(lines, i, start, current, count, before) && i < |lines| && IsDeclaration(lines[i])
    requires if current == [] then checked == before else checked == Blocks(lines)[..count] && Sound(lines, start)
    ensures Pass(lines, i + 1, i, [lines[i]], count + 1, checked)
  {
    hide IsDeclaration, Contains, Hashed, Starts;
    StartsSplit(lines, i);
    StartsSplit(lines, i + 1);
    forall k: nat | k < i ensures Sound(lines, k) {
      assert k > start && current != [] ==> !IsDeclaration(lines[k]);
    }
  }

  lemma PassOther(lines: seq<string>, i: nat, start: nat, current: seq<string>, count: nat, checked: seq<seq<string>>)
    requires Pass(lines, i, start, current, count, checked) && i < |lines| && !IsDeclaration(lines[i])
    ensures Pass(lines, i + 1, start, if current == [] then current else current + [lines[i]], count, checked)
  {
    hide IsDeclaration, Sound, Starts, Blocks;
    StartsSplit(lines, i);
    StartsSplit(lines, i + 1);
  }

  lemma PassEnd(lines: seq<string>, start: nat, current: seq<string>, count: nat, before: seq<seq<string>>,
                checked: seq<seq<string>>)
    requires Pass(lines, |lines|, start, current, count, before)
    requires if current == [] then checked == before else checked == Blocks(lines)[..count] && Sound(lines, start)
    ensures forall k: nat :: k < |lines| ==> Sound(lines, k)
    ensures count == Declarations(lines) && checked == Blocks(lines)
  {
    hide IsDeclaration, Contains, Hashed, Starts;
    assert lines[..|lines|] == lines;
    forall k: nat | k < |lines| ensures Sound(lines, k) {
      assert k > start && current != [] ==> !IsDeclaration(lines[k]);
    }
  }

  /** The check of the open block, which ends before line `i`. */
  method CheckOpenBlock(block: seq<string>, ghost lines: seq<string>, ghost i: nat, ghost start: nat,
                        ghost count: nat, ghost log: seq<seq<string>>)
    returns (r: Result<(), LockError>, ghost checked: seq<seq<string>>)
    requires Pass(lines, i, start, block, count, log) && block != [] && (i == |lines| || IsDeclaration(lines[i]))
    ensures start < |lines| && count <= |Blocks(lines)| && checked == Blocks(lines)[..count]
    ensures r.Ok? <==> Sound(lines, start)
    ensures r.Err? ==> IsDeclaration(lines[start])
    ensures r.Err? ==>
      r.error == if Contains(lines[start], PIN) then NoHash(lines[start]) else NotPinned(lines[start])
    ensures r.Err? && r.error.NoHash? ==> !Hashed(lines, start)
    ensures count > 0 && checked[count - 1] != [] && checked[count - 1][0] == lines[start]
  {
    hide Contains, IsDeclaration, Hashed, Starts;
    BlockSettles(lines, start, i, block);
    StartsSplit(lines, i);
    assert lines[..|lines|] == lines && lines[start..] == lines[start..|lines|];
    assert Blocks(lines)[count - 1] == block;
    r, checked := ValidateRequirement(block, log);
  }

  // ---------- `_require_locked_runtime_environment` ----------

  /** `line.rstrip(" \\")`. */
  function Stripped(line: string): string {
    if line != "" && line[|line| - 1] in " \\" then Stripped(line[..|line| - 1]) else line
  }

  /** `line.split("==", 1)` unpacked into two names; None where that raises. */
  function SplitPin(line: string): (r: Option<(string, string)>)
    ensures r.Some? <==> Contains(line, PIN)
    ensures r.Some? ==> line == r.value.0 + PIN + r.value.1 && forall i: nat :: i < |r.value.0| ==> !At(line, PIN, i)
  {
    SplitFrom(line, 0)
  }

  function SplitFrom(line: string, i: nat): (r: Option<(string, string)>)
    requires i <= |line| && forall k: nat :: k < i ==> !At(line, PIN, k)
    ensures r.Some? <==> Contains(line, PIN)
    ensures r.Some? ==> line == r.value.0 + PIN + r.value.1 && forall k: nat :: k < |r.value.0| ==> !At(line, PIN, k)
    decreases |line| - i
  {
    if At(line, PIN, i) then
      assert line == line[..i] + PIN + line[i + 2..];
      Some((line[..i], line[i + 2..]))
    else if i == |line| then None
    else SplitFrom(line, i + 1)
  }

  lemma {:induction false} StripKeepsPin(line: string)
    ensures Contains(Stripped(line), PIN) <==> Contains(line, PIN)
    decreases |line|
  {
    if line != "" && line[|line| - 1] in " \\" {
      var shorter := line[..|line| - 1];
      StripKeepsPin(shorter);
      if i: nat :| i <= |line| && At(line, PIN, i) {
        assert line[i + 1] == PIN[1] by { assert line[i..i + 2][1] == line[i + 1]; }
        assert i + 2 <= |shorter|;
        assert shorter[i..i + 2] == line[i..i + 2];
        assert At(shorter, PIN, i);
      }
      if i: nat :| i <= |shorter| && At(shorter, PIN, i) {
        assert shorter[i..i + 2] == line[i..i + 2];
        assert At(line, PIN, i);
      }
    }
  }

  /** Blanks and backslashes at the end are off, and nothing else. */
  lemma {:induction false} StrippedMeans(line: string, tail: string)
    requires forall i :: 0 <= i < |tail| ==> tail[i] == ' ' || tail[i] == '\\'
    requires line == "" || (line[|line| - 1] != ' ' && line[|line| - 1] != '\\')
    ensures Stripped(line + tail) == line
    decreases |tail|
  {
    if tail == [] {
      assert line + tail == line;
    } else {
      var n := |tail| - 1;
      assert (line + tail)[..|line| + n] == line + tail[..n];
      StrippedMeans(line, tail[..n]);
    }
  }

  /** No two adjacent equality signs, and none at the end. */
  ghost predicate NoPinIn(name: string) {
    forall i :: 0 <= i < |name| && name[i] == '=' ==> i + 1 < |name| && name[i + 1] != '='
  }

  /** What is read from a declaration: the name before the first "==", and the version after it
      without the blanks and the continuation sign at the end. */
  lemma PinMeans(name: string, version: string, tail: string)
    requires forall i :: 0 <= i < |tail| ==> tail[i] == ' ' || tail[i] == '\\'
    requires version != "" && version[|version| - 1] != ' ' && version[|version| - 1] != '\\'
    requires NoPinIn(name)
    ensures PinOf(name + "==" + version + tail) == Some((name, version))
  {
    var line := name + "==" + version;
    StrippedMeans(line, tail);
    assert line[|name|..|name| + 2] == "==";
    assert At(line, PIN, |name|);
    FirstPin(name, version);
    var r := SplitPin(line);
    assert line[|r.value.0|..|r.value.0| + 2] == PIN;
    assert At(line, PIN, |r.value.0|);
    assert r.value.0 == line[..|r.value.0|] == name;
    assert line[|name| + 2..] == r.value.1 == version;
  }

  lemma PinAt(line: string, i: nat)
    ensures At(line, "==", i) ==> i + 1 < |line| && line[i] == line[i + 1] == '='
  {
    if At(line, "==", i) {
      assert line[i] == line[i..i + 2][0] && line[i + 1] == line[i..i + 2][1];
    }
  }

  lemma FirstPin(name: string, version: string)
    requires NoPinIn(name)
    ensures forall i: nat :: i < |name| ==> !At(name + "==" + version, "==", i)
  {
    var line := name + "==" + version;
    forall i: nat | i < |name| ensures !At(line, "==", i) {
      PinAt(line, i);
      assert line[i] == name[i];
      assert i + 1 < |name| ==> line[i + 1] == name[i + 1];
    }
  }

  /** A pinned declaration is a mismatch if and only if another version is installed, or none. */
  lemma DiffersMeans(versions: map<string, string>, name: string, version: string, tail: string)
    requires forall i :: 0 <= i < |tail| ==> tail[i] == ' ' || tail[i] == '\\'
    requires version != "" && version[|version| - 1] != ' ' && version[|version| - 1] != '\\'
    requires NoPinIn(name)
    requires IsDeclaration(name + "==" + version + tail)
    ensures Matches(versions, name + "==" + version + tail) <==>
      if name in versions then versions[name] == version else version == "missing"
  {
    PinMeans(name, version, tail);
  }

  datatype EnvironmentError = Unparsable(line: string) | Mismatches(distributions: seq<string>)

  function Installed(versions: map<string, string>, distribution: string): string {
    if distribution in versions then versions[distribution] else "missing"
  }

  /** The pin on a declaration line. */
  function PinOf(line: string): Option<(string, string)> {
    SplitPin(Stripped(line))
  }

  ghost predicate Matches(versions: map<string, string>, line: string) {
    IsDeclaration(line) && PinOf(line).Some? ==>
      Installed(versions, PinOf(line).value.0) == PinOf(line).value.1
  }

  /** The line pins `distribution` to a version other than the installed one. */
  ghost predicate Differs(versions: map<string, string>, line: string, distribution: string) {
    !Matches(versions, line) && PinOf(line).value.0 == distribution
  }

  /** Compares every pin with the installed version. Parsing fails exactly when some
      declaration has no pin. */
  method CheckEnvironment(lines: seq<string>, versions: map<string, string>) returns (r: Result<(), EnvironmentError>)
    ensures r.Err? && r.error.Unparsable? <==> exists l :: l in lines && IsDeclaration(l) && !Contains(l, PIN)
    ensures r.Ok? ==> forall l :: l in lines ==> Matches(versions, l)
    ensures r.Err? && r.error.Mismatches? ==> exists l :: l in lines && !Matches(versions, l)
    ensures r.Err? && r.error.Mismatches? ==>
      forall d :: d in r.error.distributions <==> exists l :: l in lines && Differs(versions, l, d)
  {
    hide Contains, IsDeclaration, Stripped;
    var mismatches := [];
    for i := 0 to |lines|
      invariant forall k: nat :: k < i && IsDeclaration(lines[k]) ==> Contains(lines[k], PIN)
      invariant mismatches == [] ==> forall k: nat :: k < i ==> Matches(versions, lines[k])
      invariant forall d :: d in mismatches <==> exists k: nat :: k < i && Differs(versions, lines[k], d)
    {
      var line := lines[i];
      if IsDeclaration(line) {
        StripKeepsPin(line);
        var pin := PinOf(line);
        if pin.None? { return Err(Unparsable(line)); }
        if Installed(versions, pin.value.0) != pin.value.1 {
          assert Differs(versions, lines[i], pin.value.0);
          mismatches := mismatches + [pin.value.0];
        }
      }
    }
    if mismatches != [] {
      assert mismatches[0] in mismatches;
      return Err(Mismatches(mismatches));
    }
    return Ok(());
  }

  /** An accepted lock parses: the later `split` finds its pin on every declaration, which is
      the part before the first "==" and the part after. */
  lemma AcceptedLockParses(text: string, lines: seq<string>, line: string)
    requires Accepts(text, lines) && line in lines && IsDeclaration(line)
    ensures PinOf(line).Some?
    ensures Stripped(line) == PinOf(line).value.0 + PIN + PinOf(line).value.1
  {
    var i: nat :| i < |lines| && lines[i] == line;
    assert Sound(lines, i);
    StripKeepsPin(line);
  }
}
