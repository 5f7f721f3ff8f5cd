/** Scenario revisions: what the files of one simulation hold, and every operation of the
    revision store as the list of atomic writes it makes. A crash leaves a prefix. */
module Revisions {
  import opened Wrappers

  datatype Metadata = Metadata(revision: nat, etag: string, createdBy: string)

  datatype Revision<D> = Revision(metadata: Metadata, definition: D)

  /** The scenario file, the history directory and the metadata file. */
  datatype Files<D> = Files(
    scenarios: map<string, D>,
    history: map<(string, nat), Revision<D>>,
    metadata: map<string, Metadata>)

  datatype Write<D> =
    | WriteScenario(id: string, definition: D)
    | WriteHistory(id: string, revision: Revision<D>)
    | WriteMetadata(id: string, metadata: Metadata)

  datatype Outcome =
    | Saved(metadata: Metadata)
    | Conflict(expected: string, current: string, revision: nat)
    | Crashed

  function Apply<D>(files: Files<D>, w: Write<D>): Files<D> {
    match w
    case WriteScenario(id, d) => files.(scenarios := files.scenarios[id := d])
    case WriteHistory(id, r) => files.(history := files.history[(id, r.metadata.revision) := r])
    case WriteMetadata(id, m) => files.(metadata := files.metadata[id := m])
  }

  function ApplyAll<D>(files: Files<D>, writes: seq<Write<D>>): Files<D>
    decreases |writes|
  {
    if writes == [] then files else ApplyAll(Apply(files, writes[0]), writes[1..])
  }

  lemma {:induction false} ApplyAppend<D>(files: Files<D>, a: seq<Write<D>>, b: seq<Write<D>>)
    ensures ApplyAll(files, a + b) == ApplyAll(ApplyAll(files, a), b)
    decreases |a|
  {
    if a == [] {
      assert a + b == b;
    } else {
      assert (a + b)[1..] == a[1..] + b;
      ApplyAppend(Apply(files, a[0]), a[1..], b);
    }
  }

  /** What is left of the writes when the process stops after `budget` of them. */
  function Done<D>(writes: seq<Write<D>>, budget: nat): seq<Write<D>> {
    if budget < |writes| then writes[..budget] else writes
  }

  // --------------------------------------------------------------- the two operations

  /** The revision `_current` adopts, unless the stored content is already the head. */
  function Adopted<D>(etag: D -> string, files: Files<D>, id: string, d: D): Option<Metadata> {
    if id !in files.metadata then Some(Metadata(1, etag(d), "legacy-import"))
    else if etag(d) == files.metadata[id].etag then None
    else Some(Metadata(files.metadata[id].revision + 1, etag(d), "external-change"))
  }

  function CurrentWrites<D>(etag: D -> string, files: Files<D>, id: string, d: D): seq<Write<D>> {
    match Adopted(etag, files, id, d)
    case None => []
    case Some(m) => [WriteHistory(id, Revision(m, d)), WriteMetadata(id, m)]
  }

  function CurrentMetadata<D>(etag: D -> string, files: Files<D>, id: string, d: D): Metadata {
    match Adopted(etag, files, id, d)
    case None => files.metadata[id]
    case Some(m) => m
  }

  function PublishWrites<D>(id: string, m: Metadata, d: D): seq<Write<D>> {
    [WriteScenario(id, d), WriteHistory(id, Revision(m, d)), WriteMetadata(id, m)]
  }

  function SaveWrites<D>(etag: D -> string, files: Files<D>, id: string, d: D, actor: string,
                         expected: Option<string>): seq<Write<D>> {
    if id in files.scenarios then
      var adopting := CurrentWrites(etag, files, id, files.scenarios[id]);
      var current := CurrentMetadata(etag, files, id, files.scenarios[id]);
      if (expected.Some? && expected.value != current.etag) || etag(d) == current.etag then adopting
      else adopting + PublishWrites(id, Metadata(current.revision + 1, etag(d), actor), d)
    else if expected.Some? then []
    else PublishWrites(id, Metadata(1, etag(d), actor), d)
  }

  function SaveOutcome<D>(etag: D -> string, files: Files<D>, id: string, d: D, actor: string,
                          expected: Option<string>): Outcome {
    if id in files.scenarios then
      var current := CurrentMetadata(etag, files, id, files.scenarios[id]);
      if expected.Some? && expected.value != current.etag then Conflict(expected.value, current.etag, current.revision)
      else if etag(d) == current.etag then Saved(current)
      else Saved(Metadata(current.revision + 1, etag(d), actor))
    else if expected.Some? then Conflict(expected.value, "", 0)
    else Saved(Metadata(1, etag(d), actor))
  }

  // ------------------------------------------------------------------- the invariant

  function Head<D>(files: Files<D>, id: string): nat {
    if id in files.metadata then files.metadata[id].revision else 0
  }

  /** Revision n is stored under its own number and ETag, and differs from the one before. */
  ghost predicate Entry<D(!new)>(etag: D -> string, files: Files<D>, id: string, n: nat) {
    && (id, n) in files.history
    && files.history[(id, n)].metadata.revision == n
    && files.history[(id, n)].metadata.etag == etag(files.history[(id, n)].definition)
    && (1 < n ==>
          && (id, n - 1) in files.history
          && files.history[(id, n - 1)].metadata.etag != files.history[(id, n)].metadata.etag)
  }

  /** Committed history: numbered 1 to the head, adjacent revisions different, and the
      head is what the metadata say. At most one uncommitted revision follows it. */
  ghost predicate Committed<D(!new)>(etag: D -> string, files: Files<D>, id: string) {
    && (forall n: nat | 1 <= n <= Head(files, id) :: Entry(etag, files, id, n))
    && (forall n: nat | (id, n) in files.history :: 1 <= n <= Head(files, id) + 1)
    && (id in files.metadata ==>
          && id in files.scenarios && 1 <= Head(files, id)
          && (id, Head(files, id)) in files.history
          && files.history[(id, Head(files, id))].metadata == files.metadata[id])
  }

  ghost predicate Leftover<D(!new)>(files: Files<D>, id: string) { (id, Head(files, id) + 1) in files.history }

  /** An uncommitted revision is the stored content, waiting to be committed. */
  ghost predicate Waiting<D(!new)>(etag: D -> string, files: Files<D>, id: string)
    requires Leftover(files, id)
  {
    && id in files.scenarios && files.history[(id, Head(files, id) + 1)].definition == files.scenarios[id]
    && (id in files.metadata ==> files.metadata[id].etag != etag(files.scenarios[id]))
  }

  /** With `tidy`, also that no file was edited behind the store's back. */
  ghost predicate Sound<D(!new)>(etag: D -> string, files: Files<D>, tidy: bool, id: string) {
    Committed(etag, files, id) && (tidy && Leftover(files, id) ==> Waiting(etag, files, id))
  }

  ghost predicate Consistent<D(!new)>(etag: D -> string, files: Files<D>, tidy: bool) {
    forall id :: Sound(etag, files, tidy, id)
  }

  /** Nothing committed is changed or lost. */
  ghost predicate Keeps<D(!new)>(before: Files<D>, after: Files<D>) {
    forall id :: KeepsHistory(before, after, id)
  }

  ghost predicate KeepsHistory<D(!new)>(before: Files<D>, after: Files<D>, id: string) {
    && Head(before, id) <= Head(after, id)
    && forall n: nat | 1 <= n <= Head(before, id) && (id, n) in before.history ::
         (id, n) in after.history && after.history[(id, n)] == before.history[(id, n)]
  }

  /** The writes the store may make: any scenario, the revision after the head, and the
      metadata of that revision once it is written. */
  ghost predicate Legal<D(!new)>(etag: D -> string, files: Files<D>, tidy: bool, w: Write<D>) {
    match w
    case WriteScenario(id, _) => tidy ==> !Leftover(files, id)
    case WriteHistory(id, r) =>
      && r.metadata.revision == Head(files, id) + 1 && r.metadata.etag == etag(r.definition)
      && id in files.scenarios && files.scenarios[id] == r.definition
      && (id in files.metadata ==> files.metadata[id].etag != r.metadata.etag)
    case WriteMetadata(id, m) =>
      && id in files.scenarios && m.revision == Head(files, id) + 1
      && (id, m.revision) in files.history
      && files.history[(id, m.revision)].metadata == m
      && m.etag == etag(files.history[(id, m.revision)].definition)
      && (id in files.metadata ==> files.metadata[id].etag != m.etag)
  }

  lemma LegalSound<D(!new)>(etag: D -> string, files: Files<D>, tidy: bool, w: Write<D>, id: string)
    requires Sound(etag, files, tidy, id) && Legal(etag, files, tidy, w)
    ensures Sound(etag, Apply(files, w), tidy, id) && KeepsHistory(files, Apply(files, w), id)
  {
    var after := Apply(files, w);
    forall n: nat | 1 <= n <= Head(after, id) ensures Entry(etag, after, id, n) {
      if n <= Head(files, id) {
        assert Entry(etag, files, id, n);
      } else {
        assert w.WriteMetadata?;
        if n > 1 {
          assert Entry(etag, files, id, n - 1);
        }
      }
    }
  }

  lemma LegalKeeps<D(!new)>(etag: D -> string, files: Files<D>, tidy: bool, w: Write<D>)
    requires Consistent(etag, files, tidy) && Legal(etag, files, tidy, w)
    ensures Consistent(etag, Apply(files, w), tidy) && Keeps(files, Apply(files, w))
  {
    hide Sound, Legal, KeepsHistory;
    forall id ensures Sound(etag, Apply(files, w), tidy, id) && KeepsHistory(files, Apply(files, w), id) {
      LegalSound(etag, files, tidy, w, id);
    }
  }

  ghost predicate AllLegal<D(!new)>(etag: D -> string, files: Files<D>, tidy: bool, writes: seq<Write<D>>)
    decreases |writes|
  {
    writes != [] ==> Legal(etag, files, tidy, writes[0]) && AllLegal(etag, Apply(files, writes[0]), tidy, writes[1..])
  }

  lemma KeepsReflexive<D(!new)>(files: Files<D>)
    ensures Keeps(files, files)
  {
  }

  lemma KeepsTransitive<D(!new)>(etag: D -> string, a: Files<D>, b: Files<D>, c: Files<D>)
    requires Keeps(a, b) && Keeps(b, c)
    ensures Keeps(a, c)
  {
    forall id ensures KeepsHistory(a, c, id) {
      assert KeepsHistory(a, b, id) && KeepsHistory(b, c, id);
    }
  }

  /** However many of its writes an operation gets to make, the history stays sound. */
  lemma {:induction false} PrefixKeeps<D(!new)>(etag: D -> string, files: Files<D>, tidy: bool, writes: seq<Write<D>>,
                                                budget: nat)
    requires Consistent(etag, files, tidy) && AllLegal(etag, files, tidy, writes)
    ensures Consistent(etag, ApplyAll(files, Done(writes, budget)), tidy)
      && Keeps(files, ApplyAll(files, Done(writes, budget)))
    decreases |writes|
  {
    hide Consistent, Legal, Keeps;
    if writes == [] || budget == 0 {
      KeepsReflexive(files);
    } else {
      var next := Apply(files, writes[0]);
      LegalKeeps(etag, files, tidy, writes[0]);
      PrefixKeeps(etag, next, tidy, writes[1..], budget - 1);
      var end := ApplyAll(files, Done(writes, budget));
      assert Done(writes, budget)[1..] == Done(writes[1..], budget - 1);
      KeepsTransitive(etag, files, next, end);
    }
  }

  lemma {:induction false} LegalAppend<D(!new)>(etag: D -> string, files: Files<D>, tidy: bool, a: seq<Write<D>>,
                                                b: seq<Write<D>>)
    requires AllLegal(etag, files, tidy, a) && AllLegal(etag, ApplyAll(files, a), tidy, b)
    ensures AllLegal(etag, files, tidy, a + b)
    decreases |a|
  {
    hide Legal;
    if a == [] {
      assert a + b == b;
    } else {
      assert (a + b)[1..] == a[1..] + b;
      LegalAppend(etag, Apply(files, a[0]), tidy, a[1..], b);
    }
  }

  lemma CurrentLegal<D(!new)>(etag: D -> string, files: Files<D>, tidy: bool, id: string)
    requires Consistent(etag, files, tidy) && id in files.scenarios
    ensures AllLegal(etag, files, tidy, CurrentWrites(etag, files, id, files.scenarios[id]))
  {
    assert Sound(etag, files, tidy, id);
    var writes := CurrentWrites(etag, files, id, files.scenarios[id]);
    assert writes != [] ==> writes[1..] == [writes[1]] && writes[1..][1..] == [];
  }

  lemma PublishLegal<D(!new)>(etag: D -> string, files: Files<D>, tidy: bool, id: string, d: D, actor: string)
    requires id in files.metadata ==> etag(d) != files.metadata[id].etag
    requires tidy ==> !Leftover(files, id)
    ensures AllLegal(etag, files, tidy, PublishWrites(id, Metadata(Head(files, id) + 1, etag(d), actor), d))
  {
    var writes := PublishWrites(id, Metadata(Head(files, id) + 1, etag(d), actor), d);
    var one, two := Apply(files, writes[0]), Apply(Apply(files, writes[0]), writes[1]);
    assert writes[1..][1..] == [writes[2]] && writes[1..][1..][1..] == [];
    assert AllLegal(etag, two, tidy, [writes[2]]);
    assert AllLegal(etag, one, tidy, writes[1..]);
  }

  /** After a complete `_current`, the metadata are those of the stored content. */
  lemma CurrentDone<D(!new)>(etag: D -> string, files: Files<D>, tidy: bool, id: string)
    requires id in files.scenarios && Consistent(etag, files, tidy)
    ensures var d := files.scenarios[id];
      var after := ApplyAll(files, CurrentWrites(etag, files, id, d));
      && after.scenarios == files.scenarios && id in after.metadata
      && after.metadata[id] == CurrentMetadata(etag, files, id, d)
      && after.metadata[id].etag == etag(d)
      && (tidy ==> !Leftover(after, id))
  {
    var writes := CurrentWrites(etag, files, id, files.scenarios[id]);
    assert Sound(etag, files, tidy, id);
    if writes != [] {
      ApplyTwo(files, writes[0], writes[1]);
    }
  }

  lemma ApplyTwo<D>(files: Files<D>, a: Write<D>, b: Write<D>)
    ensures ApplyAll(files, [a, b]) == Apply(Apply(files, a), b)
  {
    ApplyAppend(files, [a], [b]);
    assert [a] + [b] == [a, b];
  }

  lemma SaveLegal<D(!new)>(etag: D -> string, files: Files<D>, tidy: bool, id: string, d: D, actor: string,
                           expected: Option<string>)
    requires Consistent(etag, files, tidy)
    ensures AllLegal(etag, files, tidy, SaveWrites(etag, files, id, d, actor, expected))
  {
    assert Sound(etag, files, tidy, id);
    hide Consistent, Sound, Legal, CurrentWrites, CurrentMetadata, PublishWrites;
    if id in files.scenarios {
      var adopting := CurrentWrites(etag, files, id, files.scenarios[id]);
      CurrentLegal(etag, files, tidy, id);
      CurrentDone(etag, files, tidy, id);
      var after := ApplyAll(files, adopting);
      if etag(d) != after.metadata[id].etag {
        PublishLegal(etag, after, tidy, id, d, actor);
        LegalAppend(etag, files, tidy, adopting, PublishWrites(id, Metadata(Head(after, id) + 1, etag(d), actor), d));
      }
    } else {
      NoScenarioNoHead(etag, files, tidy, id);
      PublishLegal(etag, files, tidy, id, d, actor);
    }
  }

  lemma NoScenarioNoHead<D(!new)>(etag: D -> string, files: Files<D>, tidy: bool, id: string)
    requires Consistent(etag, files, tidy) && id !in files.scenarios
    ensures id !in files.metadata && (tidy ==> !Leftover(files, id))
  {
    assert Sound(etag, files, tidy, id);
  }
}
