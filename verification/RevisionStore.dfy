/** The scenario revision store over the files of one simulation. A `budget` counts the
    atomic writes the process survives; None or `Crashed` means it did not return. */
module RevisionStore {
  import opened Wrappers
  import opened Revisions

  class ScenarioRevisionStore<D(==, !new)> {
    const etag: D -> string
    var scenarios: map<string, D>
    var history: map<(string, nat), Revision<D>>
    var metadata: map<string, Metadata>

    constructor (etag: D -> string)
      ensures this.etag == etag && Contents() == Files(map[], map[], map[])
    {
      this.etag := etag;
      scenarios, history, metadata := map[], map[], map[];
    }

    ghost function Contents(): Files<D>
      reads this
    {
      Files(scenarios, history, metadata)
    }

    method WriteRevision(id: string, m: Metadata, d: D)
      modifies this`history
      ensures Contents() == Apply(old(Contents()), WriteHistory(id, Revision(m, d)))
    {
      history := history[(id, m.revision) := Revision(m, d)];
    }

    /** Adopts the content as a new revision unless the head already is that content. */
    method Current(id: string, d: D, budget: nat) returns (result: Option<Metadata>, left: nat)
      modifies this`history, this`metadata
      ensures var writes := CurrentWrites(etag, old(Contents()), id, d);
        && Contents() == ApplyAll(old(Contents()), Done(writes, budget))
        && result == (if budget < |writes| then None else Some(CurrentMetadata(etag, old(Contents()), id, d)))
        && left == (if budget < |writes| then 0 else budget - |writes|)
    {
      ghost var before := Contents();
      var stored := metadata;
      var adopted;
      if id in stored {
        var current := stored[id];
        if etag(d) == current.etag {
          return Some(current), budget;
        }
        adopted := Metadata(current.revision + 1, etag(d), "external-change");
      } else {
        adopted := Metadata(1, etag(d), "legacy-import");
      }
      ghost var writes := CurrentWrites(etag, before, id, d);
      if budget == 0 {
        assert Done(writes, 0) == [];
        return None, 0;
      }
      WriteRevision(id, adopted, d);
      if budget == 1 {
        assert Done(writes, 1) == [writes[0]] && Done(writes, 1)[1..] == [];
        return None, 0;
      }
      metadata := stored[id := adopted];
      ApplyTwo(before, writes[0], writes[1]);
      return Some(adopted), budget - 2;
    }

    method Save(id: string, d: D, actor: string, expected: Option<string>, budget: nat) returns (outcome: Outcome)
      modifies this
      ensures var writes := SaveWrites(etag, old(Contents()), id, d, actor, expected);
        && Contents() == ApplyAll(old(Contents()), Done(writes, budget))
        && outcome == if budget < |writes| then Crashed else SaveOutcome(etag, old(Contents()), id, d, actor, expected)
    {
      hide CurrentWrites, CurrentMetadata, PublishWrites;
      ghost var before := Contents();
      var incoming := etag(d);
      var revision := 1;
      var left := budget;
      if id in scenarios {
        ghost var adopting := CurrentWrites(etag, before, id, scenarios[id]);
        var current;
        current, left := Current(id, scenarios[id], budget);
        ghost var created := Metadata(CurrentMetadata(etag, before, id, before.scenarios[id]).revision + 1, incoming,
          actor);
        DoneAppend(before, adopting, PublishWrites(id, created, d), budget);
        if current == None {
          return Crashed;
        }
        if expected.Some? && expected.value != current.value.etag {
          return Conflict(expected.value, current.value.etag, current.value.revision);
        }
        if incoming == current.value.etag {
          return Saved(current.value);
        }
        revision := current.value.revision + 1;
      } else {
        if expected.Some? {
          return Conflict(expected.value, "", 0);
        }
      }
      var created := Metadata(revision, incoming, actor);
      var published := Publish(id, created, d, left);
      outcome := if published then Saved(created) else Crashed;
    }

    /** The three writes of a new revision, in order. */
    method Publish(id: string, created: Metadata, d: D, budget: nat) returns (published: bool)
      modifies this
      ensures Contents() == ApplyAll(old(Contents()), Done(PublishWrites(id, created, d), budget))
      ensures published <==> |PublishWrites(id, created, d)| <= budget
    {
      ghost var before := Contents();
      ghost var writes := PublishWrites(id, created, d);
      if budget == 0 {
        assert Done(writes, 0) == [];
        return false;
      }
      scenarios := scenarios[id := d];
      if budget == 1 {
        assert Done(writes, 1) == [writes[0]] && Done(writes, 1)[1..] == [];
        return false;
      }
      WriteRevision(id, created, d);
      ApplyTwo(before, writes[0], writes[1]);
      if budget == 2 {
        assert Done(writes, 2) == [writes[0], writes[1]];
        return false;
      }
      var stored := metadata;
      metadata := stored[id := created];
      ApplyAppend(before, [writes[0], writes[1]], [writes[2]]);
      assert [writes[0], writes[1]] + [writes[2]] == writes;
      return true;
    }
  }

  lemma DoneAppend<D>(files: Files<D>, a: seq<Write<D>>, b: seq<Write<D>>, budget: nat)
    ensures ApplyAll(files, Done(a + b, budget)) ==
      if budget < |a| then ApplyAll(files, Done(a, budget))
      else ApplyAll(ApplyAll(files, a), Done(b, budget - |a|))
  {
    if budget < |a| {
      assert Done(a + b, budget) == Done(a, budget);
    } else {
      assert Done(a + b, budget) == a + Done(b, budget - |a|);
      ApplyAppend(files, a, Done(b, budget - |a|));
    }
  }
}
