/** Whole runs of the revision store, with crashes and edits from outside. */
module RevisionRuns {
  import opened Wrappers
  import opened Revisions

  datatype Operation<D> =
    | Save(id: string, definition: D, actor: string, expected: Option<string>, budget: nat)
    | Look(id: string, budget: nat)
    | Edit(id: string, definition: D)

  /** The writes an operation gets to make. A look at a missing scenario fails. */
  function OperationWrites<D>(etag: D -> string, files: Files<D>, op: Operation<D>): seq<Write<D>> {
    match op
    case Save(id, d, actor, expected, budget) => Done(SaveWrites(etag, files, id, d, actor, expected), budget)
    case Look(id, budget) =>
      if id in files.scenarios then Done(CurrentWrites(etag, files, id, files.scenarios[id]), budget) else []
    case Edit(id, d) => [WriteScenario(id, d)]
  }

  function Perform<D>(etag: D -> string, files: Files<D>, op: Operation<D>): Files<D> {
    ApplyAll(files, OperationWrites(etag, files, op))
  }

  function Run<D>(etag: D -> string, files: Files<D>, ops: seq<Operation<D>>): Files<D> {
    if ops == [] then files else Perform(etag, Run(etag, files, ops[..|ops| - 1]), ops[|ops| - 1])
  }

  predicate NoEdits<D>(ops: seq<Operation<D>>) { forall i | 0 <= i < |ops| :: !ops[i].Edit? }

  lemma NothingDone<D>(files: Files<D>)
    ensures ApplyAll(files, []) == files
  {
  }

  lemma PerformKeeps<D(!new)>(etag: D -> string, files: Files<D>, tidy: bool, op: Operation<D>)
    requires Consistent(etag, files, tidy) && (tidy ==> !op.Edit?)
    ensures Consistent(etag, Perform(etag, files, op), tidy) && Keeps(files, Perform(etag, files, op))
  {
    hide Consistent, Keeps, SaveWrites, CurrentWrites;
    match op
    case Save(id, d, actor, expected, budget) =>
      SaveLegal(etag, files, tidy, id, d, actor, expected);
      PrefixKeeps(etag, files, tidy, SaveWrites(etag, files, id, d, actor, expected), budget);
    case Look(id, budget) =>
      if id in files.scenarios {
        CurrentLegal(etag, files, tidy, id);
        PrefixKeeps(etag, files, tidy, CurrentWrites(etag, files, id, files.scenarios[id]), budget);
      } else {
        KeepsReflexive(files);
      }
    case Edit(id, d) =>
      PrefixKeeps(etag, files, tidy, [WriteScenario(id, d)], 1);
  }

  lemma EmptyConsistent<D(!new)>(etag: D -> string)
    ensures Consistent(etag, Files(map[], map[], map[]), true) && Consistent(etag, Files(map[], map[], map[]), false)
  {
  }

  /** Over every run, crashes and edits included: at each point the history is numbered
      without gaps, and nothing committed earlier is ever changed. */
  lemma {:induction false} RunKeeps<D(!new)>(etag: D -> string, files: Files<D>, tidy: bool, ops: seq<Operation<D>>,
                                             n: nat)
    requires Consistent(etag, files, tidy) && (tidy ==> NoEdits(ops)) && n <= |ops|
    ensures Consistent(etag, Run(etag, files, ops[..n]), tidy) && Consistent(etag, Run(etag, files, ops), tidy)
    ensures Keeps(Run(etag, files, ops[..n]), Run(etag, files, ops))
    decreases |ops|
  {
    hide Consistent, Keeps, Perform;
    if n == |ops| {
      assert ops[..n] == ops;
      KeepsReflexive(Run(etag, files, ops));
      if ops != [] {
        RunKeeps(etag, files, tidy, ops[..n - 1], n - 1);
        PerformKeeps(etag, Run(etag, files, ops[..n - 1]), tidy, ops[n - 1]);
      }
    } else {
      var front := ops[..|ops| - 1];
      assert front[..n] == ops[..n];
      RunKeeps(etag, files, tidy, front, n);
      PerformKeeps(etag, Run(etag, files, front), tidy, ops[|ops| - 1]);
      KeepsTransitive(etag, Run(etag, files, ops[..n]), Run(etag, files, front), Run(etag, files, ops));
    }
  }

  // ------------------------------------------------------------------ reads and If-Match

  ghost predicate Injective<D(!new)>(etag: D -> string) { forall a, b | etag(a) == etag(b) :: a == b }

  /** A look that returns leaves the stored content as the head revision. */
  lemma LookCommits<D(!new)>(etag: D -> string, files: Files<D>, tidy: bool, id: string, budget: nat)
    requires Consistent(etag, files, tidy) && id in files.scenarios
    requires |CurrentWrites(etag, files, id, files.scenarios[id])| <= budget
    ensures var after := Perform(etag, files, Look(id, budget));
      && after.scenarios == files.scenarios
      && (id, Head(after, id)) in after.history
      && etag(after.history[(id, Head(after, id))].definition) == etag(files.scenarios[id])
      && (Injective(etag) ==> after.history[(id, Head(after, id))].definition == files.scenarios[id])
      && (tidy ==> !Leftover(after, id))
  {
    var after := Perform(etag, files, Look(id, budget));
    PerformKeeps(etag, files, tidy, Look(id, budget));
    CurrentDone(etag, files, tidy, id);
    assert Sound(etag, after, tidy, id);
    assert Entry(etag, after, id, Head(after, id));
  }

  /** With an expected ETag, a save that returns succeeds exactly when a scenario is
      stored with that ETag. */
  lemma SaveSucceedsIff<D(!new)>(etag: D -> string, files: Files<D>, tidy: bool, id: string, d: D, actor: string,
                                 expected: string)
    requires Consistent(etag, files, tidy)
    ensures SaveOutcome(etag, files, id, d, actor, Some(expected)).Saved?
      <==> id in files.scenarios && etag(files.scenarios[id]) == expected
  {
    if id in files.scenarios {
      CurrentDone(etag, files, tidy, id);
    }
  }

  /** A save that succeeds stores the content, under the ETag and number it returns. */
  lemma SaveStores<D(!new)>(etag: D -> string, files: Files<D>, tidy: bool, id: string, d: D, actor: string,
                            expected: Option<string>)
    requires Consistent(etag, files, tidy) && SaveOutcome(etag, files, id, d, actor, expected).Saved?
    ensures var after := ApplyAll(files, SaveWrites(etag, files, id, d, actor, expected));
      var m := SaveOutcome(etag, files, id, d, actor, expected).metadata;
      && id in after.scenarios && etag(after.scenarios[id]) == etag(d)
      && id in after.metadata && after.metadata[id] == m && m.etag == etag(d)
      && Head(files, id) <= m.revision <= Head(files, id) + 2
      && (tidy ==> !Leftover(after, id))
  {
    hide CurrentWrites, CurrentMetadata, PublishWrites, Consistent, Leftover;
    if id in files.scenarios {
      var adopting := CurrentWrites(etag, files, id, files.scenarios[id]);
      var current := CurrentMetadata(etag, files, id, files.scenarios[id]);
      CurrentDone(etag, files, tidy, id);
      CurrentNumber(etag, files, id);
      if etag(d) != current.etag {
        var m := Metadata(current.revision + 1, etag(d), actor);
        ApplyAppend(files, adopting, PublishWrites(id, m, d));
        CurrentLegal(etag, files, tidy, id);
        PrefixKeeps(etag, files, tidy, adopting, |adopting|);
        PublishDone(etag, ApplyAll(files, adopting), tidy, id, m, d);
      }
    } else {
      NoScenarioNoHead(etag, files, tidy, id);
      PublishDone(etag, files, tidy, id, Metadata(1, etag(d), actor), d);
    }
  }

  lemma CurrentNumber<D(!new)>(etag: D -> string, files: Files<D>, id: string)
    requires id in files.scenarios
    ensures Head(files, id) <= CurrentMetadata(etag, files, id, files.scenarios[id]).revision <= Head(files, id) + 1
  {
  }

  lemma PublishDone<D(!new)>(etag: D -> string, files: Files<D>, tidy: bool, id: string, m: Metadata, d: D)
    requires Consistent(etag, files, tidy) && m.revision == Head(files, id) + 1
    ensures var after := ApplyAll(files, PublishWrites(id, m, d));
      && id in after.scenarios && after.scenarios[id] == d
      && id in after.metadata && after.metadata[id] == m
      && !Leftover(after, id)
  {
    var writes := PublishWrites(id, m, d);
    assert Sound(etag, files, tidy, id);
    ApplyAppend(files, [writes[0], writes[1]], [writes[2]]);
    assert [writes[0], writes[1]] + [writes[2]] == writes;
    ApplyTwo(files, writes[0], writes[1]);
  }

  /** Of two editors holding the same ETag, the second to save a change is refused. */
  lemma SecondEditorConflicts<D(!new)>(etag: D -> string, files: Files<D>, tidy: bool, id: string,
                                       first: D, firstActor: string, second: D, secondActor: string, expected: string)
    requires Consistent(etag, files, tidy) && etag(first) != expected
    requires SaveOutcome(etag, files, id, first, firstActor, Some(expected)).Saved?
    ensures var after := ApplyAll(files, SaveWrites(etag, files, id, first, firstActor, Some(expected)));
      var m := SaveOutcome(etag, files, id, first, firstActor, Some(expected)).metadata;
      SaveOutcome(etag, after, id, second, secondActor, Some(expected)) == Conflict(expected, m.etag, m.revision)
  {
    hide SaveWrites, Consistent;
    var after := ApplyAll(files, SaveWrites(etag, files, id, first, firstActor, Some(expected)));
    SaveStores(etag, files, tidy, id, first, firstActor, Some(expected));
  }

  // ------------------------------------------------------------------- crash recovery

  lemma {:induction false} OtherWritesSpareScenario<D(!new)>(files: Files<D>, writes: seq<Write<D>>, id: string, d: D)
    requires id in files.scenarios && forall w | w in writes :: w.WriteScenario? ==> w == WriteScenario(id, d)
    ensures var after := ApplyAll(files, writes);
      id in after.scenarios && (after.scenarios[id] == files.scenarios[id] || after.scenarios[id] == d)
    decreases |writes|
  {
    if writes != [] {
      OtherWritesSpareScenario(Apply(files, writes[0]), writes[1..], id, d);
    }
  }

  /** A save that crashed anywhere and the next look: the head is all of the new content
      or all of the old, and nothing committed before is changed. */
  lemma CrashRecovers<D(!new)>(etag: D -> string, files: Files<D>, tidy: bool, id: string, d: D, actor: string,
                               expected: Option<string>, budget: nat, looks: nat)
    requires Consistent(etag, files, tidy) && id in files.scenarios && Injective(etag) && looks >= 2
    ensures var crashed := Perform(etag, files, Save(id, d, actor, expected, budget));
      var after := Perform(etag, crashed, Look(id, looks));
      && Keeps(files, after)
      && (id, Head(after, id)) in after.history && id in after.scenarios
      && after.history[(id, Head(after, id))].definition == after.scenarios[id]
      && (after.scenarios[id] == d || after.scenarios[id] == files.scenarios[id])
      && (tidy ==> !Leftover(after, id))
  {
    hide Consistent, Keeps, Perform, Injective, Leftover, SaveWrites, CurrentWrites;
    var save, look := Save(id, d, actor, expected, budget), Look(id, looks);
    var crashed := Perform(etag, files, save);
    PerformKeeps(etag, files, tidy, save);
    SaveSparesScenario(etag, files, id, d, actor, expected, budget);
    PerformKeeps(etag, crashed, tidy, look);
    TwoWritesAtMost(etag, crashed, id);
    LookCommits(etag, crashed, tidy, id, looks);
    KeepsTransitive(etag, files, crashed, Perform(etag, crashed, look));
  }

  lemma TwoWritesAtMost<D(!new)>(etag: D -> string, files: Files<D>, id: string)
    requires id in files.scenarios
    ensures |CurrentWrites(etag, files, id, files.scenarios[id])| <= 2
  {
  }

  lemma SaveSparesScenario<D(!new)>(etag: D -> string, files: Files<D>, id: string, d: D, actor: string,
                                    expected: Option<string>, budget: nat)
    requires id in files.scenarios
    ensures var crashed := Perform(etag, files, Save(id, d, actor, expected, budget));
      id in crashed.scenarios && (crashed.scenarios[id] == d || crashed.scenarios[id] == files.scenarios[id])
  {
    var writes := SaveWrites(etag, files, id, d, actor, expected);
    assert forall w | w in writes :: w.WriteScenario? ==> w == WriteScenario(id, d);
    assert forall w | w in Done(writes, budget) :: w in writes;
    hide SaveWrites;
    OtherWritesSpareScenario(files, Done(writes, budget), id, d);
  }

  // ----------------------------------------------------------------- listing the history

  /** The revision numbers `history` finds in the scenario's directory. */
  ghost function Listed<D(!new)>(files: Files<D>, id: string): set<nat> {
    set key | key in files.history && key.0 == id :: key.1
  }

  ghost predicate Between(k: nat, n: nat) { 1 <= k <= n }

  ghost function UpTo(n: nat): set<nat> { set k: nat | k <= n && Between(k, n) }

  /** The listing is the committed history exactly when no uncommitted revision is left. */
  lemma ListedIff<D(!new)>(etag: D -> string, files: Files<D>, tidy: bool, id: string)
    requires Consistent(etag, files, tidy)
    ensures Listed(files, id) == UpTo(Head(files, id)) <==> !Leftover(files, id)
  {
    assert Sound(etag, files, tidy, id);
    var head := Head(files, id);
    forall k | k in UpTo(head) ensures k in Listed(files, id) {
      assert Entry(etag, files, id, k);
      assert (id, k) in files.history;
    }
    assert head + 1 !in UpTo(head);
    if Leftover(files, id) {
      assert (id, head + 1) in files.history;
      assert head + 1 in Listed(files, id);
    }
  }

  /** Without edits from outside, a look that returns lists exactly the committed
      history, whatever crashed before. */
  lemma CrashesLeaveNothing<D(!new)>(etag: D -> string, ops: seq<Operation<D>>, id: string, budget: nat)
    requires NoEdits(ops) && budget >= 2
    requires id in Run(etag, Files(map[], map[], map[]), ops).scenarios
    ensures var after := Perform(etag, Run(etag, Files(map[], map[], map[]), ops), Look(id, budget));
      Listed(after, id) == UpTo(Head(after, id))
  {
    var empty := Files(map[], map[], map[]);
    EmptyConsistent(etag);
    hide Consistent, Keeps, Perform, Listed, CurrentWrites;
    RunKeeps(etag, empty, true, ops, 0);
    var files := Run(etag, empty, ops);
    TwoWritesAtMost(etag, files, id);
    LookCommits(etag, files, true, id, budget);
    PerformKeeps(etag, files, true, Look(id, budget));
    ListedIff(etag, Perform(etag, files, Look(id, budget)), true, id);
  }

  /** With one they can: a save crashes before its metadata, the file is put back by
      hand, and the listing shows a revision that was never committed. */
  lemma EditLeavesLeftover<D(!new)>(etag: D -> string, id: string, a: D, b: D, actor: string)
    requires etag(a) != etag(b)
    ensures var ops := [Save(id, a, actor, None, 3), Save(id, b, actor, None, 2), Edit(id, a), Look(id, 2)];
      var files := Run(etag, Files(map[], map[], map[]), ops);
      Head(files, id) == 1 && Listed(files, id) == {1, 2}
  {
    var empty: Files<D> := Files(map[], map[], map[]);
    var ops := [Save(id, a, actor, None, 3), Save(id, b, actor, None, 2), Edit(id, a), Look(id, 2)];
    var m1, m2 := Metadata(1, etag(a), actor), Metadata(2, etag(b), actor);
    var one := Files(map[id := a], map[(id, 1) := Revision(m1, a)], map[id := m1]);
    var history := map[(id, 1) := Revision(m1, a), (id, 2) := Revision(m2, b)];
    var two := Files(map[id := b], history, map[id := m1]);
    var three := Files(map[id := a], history, map[id := m1]);
    FirstSave(etag, id, a, actor);
    CrashedSave(etag, one, id, a, b, actor);
    EditOnly(etag, two, id, a);
    assert two.scenarios[id := a] == three.scenarios;
    assert Perform(etag, three, ops[3]) == three;
    hide Perform;
    RunFour(etag, empty, ops[0], ops[1], ops[2], ops[3]);
    hide Run;
    assert (id, 1) in history && (id, 2) in history;
    assert 1 in Listed(three, id) && 2 in Listed(three, id);
  }

  lemma RunSnoc<D>(etag: D -> string, files: Files<D>, ops: seq<Operation<D>>, op: Operation<D>)
    ensures Run(etag, files, ops + [op]) == Perform(etag, Run(etag, files, ops), op)
  {
    assert (ops + [op])[..|ops|] == ops;
  }

  lemma RunFour<D>(etag: D -> string, files: Files<D>, p: Operation<D>, q: Operation<D>, r: Operation<D>,
                   s: Operation<D>)
    ensures Run(etag, files, [p, q, r, s])
      == Perform(etag, Perform(etag, Perform(etag, Perform(etag, files, p), q), r), s)
  {
    hide Perform, Run;
    RunSnoc(etag, files, [p, q, r], s);
    RunSnoc(etag, files, [p, q], r);
    RunSnoc(etag, files, [p], q);
    RunSnoc(etag, files, [], p);
    assert [p, q, r, s] == [p, q, r] + [s] && [p, q, r] == [p, q] + [r] && [p, q] == [p] + [q] && [p] == [] + [p];
    RunNothing(etag, files);
  }

  lemma RunNothing<D>(etag: D -> string, files: Files<D>)
    ensures Run(etag, files, []) == files
  {
  }

  lemma EditOnly<D>(etag: D -> string, files: Files<D>, id: string, d: D)
    ensures Perform(etag, files, Edit(id, d)) == files.(scenarios := files.scenarios[id := d])
  {
    assert [WriteScenario(id, d)][1..] == [];
    NothingDone(Apply(files, WriteScenario(id, d)));
  }

  lemma FirstSave<D(!new)>(etag: D -> string, id: string, a: D, actor: string)
    ensures var m := Metadata(1, etag(a), actor);
      Perform(etag, Files(map[], map[], map[]), Save(id, a, actor, None, 3))
        == Files(map[id := a], map[(id, 1) := Revision(m, a)], map[id := m])
  {
    var empty: Files<D> := Files(map[], map[], map[]);
    var m := Metadata(1, etag(a), actor);
    var writes := PublishWrites(id, m, a);
    ApplyAppend(empty, [writes[0], writes[1]], [writes[2]]);
    assert [writes[0], writes[1]] + [writes[2]] == writes;
    ApplyTwo(empty, writes[0], writes[1]);
  }

  lemma CrashedSave<D(!new)>(etag: D -> string, files: Files<D>, id: string, a: D, b: D, actor: string)
    requires etag(a) != etag(b)
    requires var m := Metadata(1, etag(a), actor);
      files == Files(map[id := a], map[(id, 1) := Revision(m, a)], map[id := m])
    ensures var m1, m2 := Metadata(1, etag(a), actor), Metadata(2, etag(b), actor);
      Perform(etag, files, Save(id, b, actor, None, 2))
        == Files(map[id := b], map[(id, 1) := Revision(m1, a), (id, 2) := Revision(m2, b)], map[id := m1])
  {
    var m2 := Metadata(2, etag(b), actor);
    var writes := PublishWrites(id, m2, b);
    assert SaveWrites(etag, files, id, b, actor, None) == [] + writes;
    assert Done([] + writes, 2) == [writes[0], writes[1]];
    ApplyTwo(files, writes[0], writes[1]);
  }
}
