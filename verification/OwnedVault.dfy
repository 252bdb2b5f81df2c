/** `OwnedVault`: fixture credentials in a shared vault, with a written ledger of the ones
    this run claims. Every method may be cut short between any two of its statements. */
module OwnedVault {
  import opened Wrappers

  type CredentialId = string
  type Entries = map<CredentialId, string>

  const PROTECTED: string := ":protected:"

  predicate MarkAt(id: CredentialId, i: nat) {
    i + |PROTECTED| <= |id| && id[i..i + |PROTECTED|] == PROTECTED
  }

  predicate IsProtected(id: CredentialId) {
    exists i: nat :: i < |id| && MarkAt(id, i)
  }

  /** An id is protected if and only if the mark stands somewhere in it. */
  lemma ProtectedMeans(id: CredentialId)
    ensures IsProtected(id) <==> exists before: string, after: string :: id == Marked(before, after)
  {
    if i: nat :| i < |id| && MarkAt(id, i) {
      assert id == Marked(id[..i], id[i + 11..]);
    }
    if before: string, after: string :| id == Marked(before, after) {
      assert id[|before|..|before| + 11] == ":protected:";
      assert MarkAt(id, |before|);
    }
  }

  ghost function Marked(before: string, after: string): CredentialId {
    before + ":protected:" + after
  }

  // ---------- Runs of calls ----------

  /** The vault, the claims, the written ledger, and the entries this object put there. */
  datatype State = State(entries: Entries, owned: set<CredentialId>, ledger: Option<set<CredentialId>>,
                         mine: set<CredentialId>)

  /** A call that gets through its first `done` statements, or a write by somebody else. A
      cleanup is a row of deletions and, if it gets that far, the final ledger. */
  datatype Call =
    | SetCall(id: CredentialId, secret: string, done: nat)
    | DeleteCall(id: CredentialId, done: nat)
    | LedgerCall
    | RivalCall(id: CredentialId, secret: string)

  function Step(s: State, c: Call): State {
    match c
    case SetCall(id, secret, done) =>
      if id !in s.owned && id in s.entries then s
      else
        var claimed := if done >= 1 then s.(owned := s.owned + {id}) else s;
        var written := if done >= 2 then claimed.(ledger := Some(claimed.owned)) else claimed;
        if done >= 3 then written.(entries := s.entries[id := secret], mine := s.mine + {id}) else written
    case DeleteCall(id, done) =>
      if id !in s.owned then s
      else
        var removed := if done >= 1 then s.(entries := s.entries - {id}, mine := s.mine - {id}) else s;
        if done >= 2 then removed.(owned := s.owned - {id}) else removed
    case LedgerCall => s.(ledger := Some(s.owned))
    case RivalCall(id, secret) => s.(entries := s.entries[id := secret], mine := s.mine - {id})
  }

  function After(s: State, calls: seq<Call>): State {
    if calls == [] then s
    else Step(After(s, calls[..|calls| - 1]), calls[|calls| - 1])
  }

  function Start(entries: Entries): State {
    State(entries, {}, None, {})
  }

  /** Whatever this object has in the vault it claims, and the written ledger names it. */
  ghost predicate Covered(s: State) {
    && s.mine <= s.entries.Keys && s.mine <= s.owned
    && (s.mine != {} ==> s.ledger.Some? && s.mine <= s.ledger.value)
  }

  /** Under a claimed id the vault holds only entries of this object. */
  ghost predicate Undisturbed(s: State) {
    forall id :: id in s.owned && id in s.entries ==> id in s.mine
  }

  ghost function ForeignEntries(s: State): Entries {
    s.entries - s.mine
  }

  /** Somebody else writes under an id that this object claims. */
  ghost predicate Intrudes(s: State, c: Call) {
    c.RivalCall? && c.id in s.owned
  }

  /** No call of this object, completed or cut, would touch a foreign entry now. */
  ghost predicate SparesForeign(s: State) {
    forall c: Call :: !c.RivalCall? ==> ForeignEntries(Step(s, c)) == ForeignEntries(s)
  }

  lemma StepKeepsCovered(s: State, c: Call)
    requires Covered(s)
    ensures Covered(Step(s, c))
  {
  }

  lemma {:induction false} RunKeepsCovered(s: State, calls: seq<Call>)
    requires Covered(s)
    ensures Covered(After(s, calls))
  {
    if calls != [] {
      RunKeepsCovered(s, calls[..|calls| - 1]);
      StepKeepsCovered(After(s, calls[..|calls| - 1]), calls[|calls| - 1]);
    }
  }

  /** Only somebody else can disturb, and does so exactly under a claimed id. */
  lemma StepKeepsUndisturbed(s: State, c: Call)
    requires Covered(s) && Undisturbed(s)
    ensures Undisturbed(Step(s, c)) <==> !Intrudes(s, c)
    ensures ForeignEntries(Step(s, c)) ==
      if c.RivalCall? then ForeignEntries(s)[c.id := c.secret] else ForeignEntries(s)
  {
    match c
    case SetCall(id, secret, done) =>
      assert ForeignEntries(Step(s, c)) == ForeignEntries(s);
    case DeleteCall(id, done) =>
      assert ForeignEntries(Step(s, c)) == ForeignEntries(s);
    case LedgerCall =>
    case RivalCall(id, secret) =>
      assert id in s.owned ==> id in Step(s, c).entries && id !in Step(s, c).mine;
      assert ForeignEntries(Step(s, c)) == ForeignEntries(s)[id := secret];
  }

  /** At a given moment foreign entries are out of reach exactly while nothing foreign stands
      under a claimed id: such an entry is lost to the next `set` of that id, or `delete`. */
  lemma SparesIffUndisturbed(s: State)
    requires Covered(s)
    ensures SparesForeign(s) <==> Undisturbed(s)
  {
    if Undisturbed(s) {
      forall c: Call | !c.RivalCall? ensures ForeignEntries(Step(s, c)) == ForeignEntries(s) {
        StepKeepsUndisturbed(s, c);
      }
    } else {
      var id :| id in s.owned && id in s.entries && id !in s.mine;
      var overwrite := SetCall(id, "", 3);
      assert id in ForeignEntries(s) && id !in ForeignEntries(Step(s, overwrite));
    }
  }

  ghost predicate NoIntrusion(s: State, calls: seq<Call>) {
    forall n :: 0 <= n < |calls| ==> !Intrudes(After(s, calls[..n]), calls[n])
  }

  /** All through a run, cuts included, foreign entries are out of reach exactly if nobody else
      writes under an id that is claimed at that moment. */
  lemma ForeignEntriesSurvive(entries: Entries, calls: seq<Call>)
    ensures (forall n :: 0 <= n <= |calls| ==> SparesForeign(After(Start(entries), calls[..n])))
       <==> NoIntrusion(Start(entries), calls)
  {
    var s := Start(entries);
    forall n | 0 <= n <= |calls|
      ensures SparesForeign(After(s, calls[..n])) <==> Undisturbed(After(s, calls[..n]))
    {
      RunKeepsCovered(s, calls[..n]);
      SparesIffUndisturbed(After(s, calls[..n]));
    }
    if NoIntrusion(s, calls) {
      forall n | 0 <= n <= |calls| ensures Undisturbed(After(s, calls[..n])) {
        QuietRun(s, calls, n);
      }
    }
    if forall n :: 0 <= n <= |calls| ==> Undisturbed(After(s, calls[..n])) {
      forall n | 0 <= n < |calls| ensures !Intrudes(After(s, calls[..n]), calls[n]) {
        RunKeepsCovered(s, calls[..n]);
        StepKeepsUndisturbed(After(s, calls[..n]), calls[n]);
        OneMore(s, calls, n);
        assert Undisturbed(After(s, calls[..n + 1]));
      }
    }
  }

  lemma OneMore(s: State, calls: seq<Call>, n: nat)
    requires n < |calls|
    ensures After(s, calls[..n + 1]) == Step(After(s, calls[..n]), calls[n])
  {
    assert calls[..n + 1][..n] == calls[..n];
  }

  /** What the foreign entries must be if every write of others simply stays. */
  ghost function WithRivals(entries: Entries, calls: seq<Call>): Entries {
    if calls == [] then entries
    else
      var c, earlier := calls[|calls| - 1], WithRivals(entries, calls[..|calls| - 1]);
      if c.RivalCall? then earlier[c.id := c.secret] else earlier
  }

  lemma {:induction false} QuietRun(s: State, calls: seq<Call>, n: nat)
    requires Covered(s) && Undisturbed(s) && NoIntrusion(s, calls) && n <= |calls|
    ensures Covered(After(s, calls[..n])) && Undisturbed(After(s, calls[..n]))
    ensures ForeignEntries(After(s, calls[..n])) == WithRivals(ForeignEntries(s), calls[..n])
  {
    if n > 0 {
      QuietRun(s, calls, n - 1);
      OneMore(s, calls, n - 1);
      assert calls[..n][..n - 1] == calls[..n - 1];
      StepKeepsCovered(After(s, calls[..n - 1]), calls[n - 1]);
      StepKeepsUndisturbed(After(s, calls[..n - 1]), calls[n - 1]);
    }
  }

  /** Such a run leaves everything others wrote, before or meanwhile, as they last wrote it. */
  lemma OthersKeepTheirs(entries: Entries, calls: seq<Call>)
    requires NoIntrusion(Start(entries), calls)
    ensures ForeignEntries(After(Start(entries), calls)) == WithRivals(entries, calls)
  {
    QuietRun(Start(entries), calls, |calls|);
    assert calls[..|calls|] == calls;
    assert ForeignEntries(Start(entries)) == entries;
  }

  /** A run with an intrusion: a `set` is cut after its claim, somebody else takes the id, and
      the repeated `set` overwrites that entry, as a `delete` would remove it. */
  lemma CutSetCanOverwrite()
    ensures var s := After(Start(map[]), [SetCall("key", "own", 2), RivalCall("key", "theirs")]);
      && ForeignEntries(s) == map["key" := "theirs"]
      && Step(s, SetCall("key", "own", 3)).entries == map["key" := "own"]
      && Step(s, DeleteCall("key", 2)).entries == map[]
  {
    var first, second := SetCall("key", "own", 2), RivalCall("key", "theirs");
    assert [first, second][..1] == [first] && [first][..0] == [];
    assert After(Start(map[]), [first]) == State(map[], {"key"}, Some({"key"}), {});
    var s := After(Start(map[]), [first, second]);
    assert s.entries == map["key" := "theirs"];
    assert Step(s, SetCall("key", "own", 3)).entries == map["key" := "own"];
    assert Step(s, DeleteCall("key", 2)).entries == map[];
  }

  lemma AfterNothing(s: State)
    ensures After(s, []) == s
  {
  }

  lemma AfterGrows(s: State, calls: seq<Call>, c: Call)
    ensures After(s, calls + [c]) == Step(After(s, calls), c)
  {
    assert (calls + [c])[..|calls|] == calls;
  }

  lemma LedgerWritten(s: State)
    ensures Step(s, LedgerCall) == s.(ledger := Some(s.owned))
    ensures Covered(s) ==> Covered(Step(s, LedgerCall))
    ensures Undisturbed(s) ==> Undisturbed(Step(s, LedgerCall))
    ensures ForeignEntries(Step(s, LedgerCall)) == ForeignEntries(s)
  {
  }

  /** What a cleanup deletes. */
  ghost function Disposable(owned: set<CredentialId>): set<CredentialId> {
    set id | id in owned && !IsProtected(id)
  }

  /** Entries that are not claimed, or protected, are as they were. */
  ghost predicate KeepsRest(before: Entries, owned: set<CredentialId>, after: Entries) {
    forall id :: id in before && (id !in owned || IsProtected(id)) ==> id in after && after[id] == before[id]
  }

  lemma GoneFrom(before: Entries, owned: set<CredentialId>, gone: set<CredentialId>)
    requires gone <= Disposable(owned)
    ensures KeepsRest(before, owned, before - gone)
    ensures forall id :: before - gone - {id} == before - (gone + {id}) && owned - gone - {id} == owned - (gone + {id})
    ensures before - {} == before && owned - {} == owned
  {
    forall id ensures before - gone - {id} == before - (gone + {id}) {
      assert (before - gone - {id}).Keys == (before - (gone + {id})).Keys;
    }
  }

  lemma OneMoreDoomed(doomed: set<CredentialId>, gone: set<CredentialId>, id: CredentialId)
    requires gone <= doomed && id in doomed && id !in gone
    ensures |gone + {id}| == |gone| + 1 <= |doomed|
  {
    assert doomed == gone + {id} + (doomed - gone - {id});
  }

  // ---------- The object ----------

  datatype VaultError = EntryAlreadyExists | UnownedDelete | Cut

  class Vault {
    var entries: Entries
    var owned: set<CredentialId>
    var ledger: Option<set<CredentialId>>
    /** The entries now in the vault that this object put there. */
    ghost var mine: set<CredentialId>

    constructor (entries: Entries)
      ensures Now() == Start(entries) && Ledgered() && Exclusive()
    {
      this.entries, owned, ledger, mine := entries, {}, None, {};
    }

    ghost function Now(): State
      reads this
    {
      State(entries, owned, ledger, mine)
    }

    ghost predicate Ledgered()
      reads this
    {
      Covered(Now())
    }

    ghost predicate Exclusive()
      reads this
    {
      Undisturbed(Now())
    }

    ghost function Foreign(): Entries
      reads this
    {
      ForeignEntries(Now())
    }

    /** `set`, cut short after `done` statements if that is less than all three. */
    method Set(id: CredentialId, secret: string, done: nat) returns (r: Result<(), VaultError>)
      requires Ledgered()
      modifies this
      ensures Ledgered() && Now() == Step(old(Now()), SetCall(id, secret, done))
      ensures r.Ok? <==> (id in old(owned) || id !in old(entries)) && done >= 3
      ensures r.Err? && r.error == EntryAlreadyExists <==> id !in old(owned) && id in old(entries)
      ensures r.Err? && r.error == EntryAlreadyExists ==> Now() == old(Now())
      ensures r.Ok? ==> entries == old(entries)[id := secret] && owned == old(owned) + {id} && ledger == Some(owned)
      ensures entries == old(entries) || entries == old(entries)[id := secret]
      ensures old(Exclusive()) ==> Exclusive() && Foreign() == old(Foreign())
      ensures r.Ok? ==> (Foreign() == old(Foreign()) <==> (id in old(entries) ==> id in old(mine)))
    {
      StepKeepsCovered(Now(), SetCall(id, secret, done));
      if Exclusive() { StepKeepsUndisturbed(Now(), SetCall(id, secret, done)); }
      if !(id in owned || id !in entries) { return Err(EntryAlreadyExists); }
      if done == 0 { return Err(Cut); }
      owned := owned + {id};
      if done == 1 { return Err(Cut); }
      ledger := Some(owned);
      if done == 2 { return Err(Cut); }
      ghost var wasForeign := id in entries && id !in mine;
      ghost var foreign := Foreign();
      entries, mine := entries[id := secret], mine + {id};
      assert wasForeign ==> id in foreign && id !in Foreign();
      assert !wasForeign ==> Foreign() == foreign;
      return Ok(());
    }

    /** `delete`, cut short after `done` statements if that is less than both. */
    method Delete(id: CredentialId, done: nat) returns (r: Result<(), VaultError>)
      requires Ledgered()
      modifies this`entries, this`owned, this`mine
      ensures Ledgered() && Now() == Step(old(Now()), DeleteCall(id, done))
      ensures r.Err? ==> r.error in {UnownedDelete, Cut}
      ensures r.Ok? <==> id in old(owned) && done >= 2
      ensures r.Err? && r.error == UnownedDelete <==> id !in old(owned)
      ensures r.Err? && r.error == UnownedDelete ==> Now() == old(Now())
      ensures r.Ok? ==> entries == old(entries) - {id} && owned == old(owned) - {id}
      ensures entries == old(entries) || entries == old(entries) - {id}
      ensures old(Exclusive()) ==> Exclusive() && Foreign() == old(Foreign())
      ensures r.Ok? ==> (Foreign() == old(Foreign()) <==> (id in old(entries) ==> id in old(mine)))
    {
      StepKeepsCovered(Now(), DeleteCall(id, done));
      if Exclusive() { StepKeepsUndisturbed(Now(), DeleteCall(id, done)); }
      if id !in owned { return Err(UnownedDelete); }
      if done == 0 { return Err(Cut); }
      ghost var wasForeign := id in entries && id !in mine;
      ghost var foreign := Foreign();
      entries, mine := entries - {id}, mine - {id};
      assert wasForeign ==> id in foreign && id !in Foreign();
      assert !wasForeign ==> Foreign() == foreign;
      if done == 1 { return Err(Cut); }
      owned := owned - {id};
      return Ok(());
    }

    /** `cleanup`, cut short after `done` statements, two for each deletion and one for the
        ledger: gone are exactly the claimed entries that are not protected, and the ledger
        names the rest. */
    method Cleanup(done: nat) returns (r: Result<(), VaultError>, ghost calls: seq<Call>)
      requires Ledgered()
      modifies this
      ensures Ledgered() && Now() == After(old(Now()), calls)
      ensures forall c :: c in calls ==> c.LedgerCall? || (c.DeleteCall? && !IsProtected(c.id))
      ensures r.Ok? <==> done > 2 * |Disposable(old(owned))|
      ensures r.Ok? ==> owned == old(owned) - Disposable(old(owned)) && ledger == Some(owned)
      ensures r.Ok? ==> entries == old(entries) - Disposable(old(owned))
      ensures KeepsRest(old(entries), old(owned), entries)
      ensures r.Err? ==> r.error == Cut
      ensures old(Exclusive()) ==> Exclusive() && Foreign() == old(Foreign())
    {
      hide Covered, Undisturbed, ForeignEntries, After, Step, Disposable;
      var left;
      r, left, calls := DeleteDisposable(done);
      if r.Err? { return; }
      if left == 0 { return Err(Cut), calls; }
      AfterGrows(old(Now()), calls, LedgerCall);
      LedgerWritten(Now());
      ledger := Some(owned);
      calls := calls + [LedgerCall];
    }

    /** The loop of `cleanup`; `left` is what remains of the `done` statements. */
    method DeleteDisposable(done: nat) returns (r: Result<(), VaultError>, left: nat, ghost calls: seq<Call>)
      requires Ledgered()
      modifies this`entries, this`owned, this`mine
      ensures Ledgered() && Now() == After(old(Now()), calls)
      ensures forall c :: c in calls ==> c.DeleteCall? && !IsProtected(c.id)
      ensures r.Ok? <==> done >= 2 * |Disposable(old(owned))|
      ensures r.Ok? ==> left == done - 2 * |Disposable(old(owned))|
      ensures r.Ok? ==> owned == old(owned) - Disposable(old(owned))
      ensures r.Ok? ==> entries == old(entries) - Disposable(old(owned))
      ensures KeepsRest(old(entries), old(owned), entries)
      ensures r.Err? ==> r.error == Cut
      ensures old(Exclusive()) ==> Exclusive() && Foreign() == old(Foreign())
    {
      hide Covered, Undisturbed, ForeignEntries, After, Step, IsProtected, KeepsRest;
      ghost var doomed, gone := Disposable(owned), {};
      AfterNothing(Now());
      GoneFrom(entries, owned, {});
      var todo := owned;
      left, calls := done, [];
      while todo != {}
        invariant Ledgered() && todo <= owned
        invariant gone <= doomed <= gone + todo && gone !! todo
        invariant owned == old(owned) - gone && entries == old(entries) - gone && left == done - 2 * |gone|
        invariant old(Exclusive()) ==> Exclusive() && Foreign() == old(Foreign())
        invariant Now() == After(old(Now()), calls)
        invariant forall c :: c in calls ==> c.DeleteCall? && !IsProtected(c.id)
        decreases todo
      {
        var id :| id in todo;
        if !IsProtected(id) {
          OneMoreDoomed(doomed, gone, id);
          GoneFrom(old(entries), old(owned), gone);
          GoneFrom(old(entries), old(owned), gone + {id});
          AfterGrows(old(Now()), calls, DeleteCall(id, left));
          calls := calls + [DeleteCall(id, left)];
          var deleted := Delete(id, left);
          if deleted.Err? { return deleted, left, calls; }
          left, gone := left - 2, gone + {id};
        }
        todo := todo - {id};
      }
      assert gone == doomed;
      GoneFrom(old(entries), old(owned), gone);
      return Ok(()), left, calls;
    }

    /** Somebody else writes an entry. It breaks exclusiveness exactly under a claimed id. */
    method RivalWrites(id: CredentialId, secret: string)
      requires Ledgered()
      modifies this`entries, this`mine
      ensures Ledgered() && Now() == Step(old(Now()), RivalCall(id, secret))
      ensures entries == old(entries)[id := secret] && mine == old(mine) - {id} && owned == old(owned)
      ensures old(Exclusive()) ==> (Exclusive() <==> id !in owned)
    {
      if Exclusive() { StepKeepsUndisturbed(Now(), RivalCall(id, secret)); }
      entries, mine := entries[id := secret], mine - {id};
    }
  }
}
