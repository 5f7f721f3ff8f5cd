/** Exactly which revision a read or a save adds, under which number, ETag and author. */
module RevisionNumbers {
  import opened Wrappers
  import opened Revisions
  import opened RevisionRuns

  /** One revision more, which is the new head; the stored scenarios stay. */
  ghost predicate Adds<D(!new)>(before: Files<D>, after: Files<D>, id: string, m: Metadata, d: D) {
    && after.history == before.history[(id, m.revision) := Revision(m, d)]
    && after.metadata == before.metadata[id := m]
  }

  /** The stored content of a scenario is its head revision. */
  ghost predicate UpToDate<D(!new)>(etag: D -> string, files: Files<D>, id: string) {
    id in files.scenarios && id in files.metadata && files.metadata[id].etag == etag(files.scenarios[id])
  }

  /** A read adds nothing to a scenario that is up to date, and otherwise one revision with
      what is stored: the first as an import, later ones as changes from outside. */
  lemma LookAdopts<D(!new)>(etag: D -> string, files: Files<D>, id: string, budget: nat)
    requires id in files.scenarios && budget >= 2
    ensures var (after, d) := (Perform(etag, files, Look(id, budget)), files.scenarios[id]);
      if UpToDate(etag, files, id) then after == files
      else
        && after.scenarios == files.scenarios
        && Adds(files, after, id,
             if id in files.metadata then Metadata(files.metadata[id].revision + 1, etag(d), "external-change")
             else Metadata(1, etag(d), "legacy-import"), d)
  {
    TwoWrites(files, CurrentWrites(etag, files, id, files.scenarios[id]));
  }

  lemma TwoWrites<D(!new)>(files: Files<D>, writes: seq<Write<D>>)
    ensures writes == [] ==> ApplyAll(files, writes) == files
    ensures |writes| == 2 ==> ApplyAll(files, writes) == Apply(Apply(files, writes[0]), writes[1])
    ensures |writes| == 3 ==> ApplyAll(files, writes) == Apply(Apply(Apply(files, writes[0]), writes[1]), writes[2])
    decreases |writes|
  {
    hide Apply;
    if writes != [] {
      var one := Apply(files, writes[0]);
      assert ApplyAll(files, writes) == ApplyAll(one, writes[1..]);
      if |writes| == 2 {
        assert ApplyAll(one, writes[1..]) == ApplyAll(Apply(one, writes[1]), []);
      } else if |writes| == 3 {
        TwoWrites(one, writes[1..]);
      }
    }
  }

  /** What a save finds: the files after the read it starts with. */
  ghost function Found<D(!new)>(etag: D -> string, files: Files<D>, id: string): Files<D> {
    if id in files.scenarios then Perform(etag, files, Look(id, 2)) else files
  }

  /** A save that returns is refused exactly when another ETag was expected than that of
      what is stored, and then leaves what it found. It adds nothing for content that is
      stored already, and else the next revision, with the saver as its author. */
  lemma SaveAdds<D(!new)>(etag: D -> string, files: Files<D>, tidy: bool, id: string, d: D, actor: string,
                          expected: Option<string>)
    requires Consistent(etag, files, tidy)
    ensures var (found, after) := (Found(etag, files, id),
        ApplyAll(files, SaveWrites(etag, files, id, d, actor, expected)));
      match SaveOutcome(etag, files, id, d, actor, expected)
      case Conflict(asked, current, revision) =>
        && expected == Some(asked) && after == found
        && if id in files.scenarios then
             etag(files.scenarios[id]) == current != asked && revision == Head(found, id)
           else current == "" && revision == 0
      case Saved(m) =>
        && (expected.Some? ==> id in files.scenarios && etag(files.scenarios[id]) == expected.value)
        && (if id in files.scenarios && etag(files.scenarios[id]) == etag(d) then
              after == found && id in found.metadata && m == found.metadata[id]
            else
              && m == Metadata(Head(found, id) + 1, etag(d), actor)
              && after.scenarios == files.scenarios[id := d] && Adds(found, after, id, m, d))
      case Crashed => false
  {
    hide Consistent, Adds, Leftover;
    if id in files.scenarios {
      var adopting := CurrentWrites(etag, files, id, files.scenarios[id]);
      var current := CurrentMetadata(etag, files, id, files.scenarios[id]);
      CurrentDone(etag, files, tidy, id);
      var m := Metadata(current.revision + 1, etag(d), actor);
      ApplyAppend(files, adopting, PublishWrites(id, m, d));
      Publishes(Found(etag, files, id), id, m, d);
      hide CurrentWrites, CurrentMetadata, PublishWrites;
    } else {
      NoScenarioNoHead(etag, files, tidy, id);
      Publishes(files, id, Metadata(1, etag(d), actor), d);
      NothingDone(files);
    }
  }

  lemma Publishes<D(!new)>(files: Files<D>, id: string, m: Metadata, d: D)
    ensures var after := ApplyAll(files, PublishWrites(id, m, d));
      after.scenarios == files.scenarios[id := d] && Adds(files, after, id, m, d)
  {
    TwoWrites(files, PublishWrites(id, m, d));
  }
}
