/** Scenario templates: a definition with literals parameterised, stored under an id, and
    rendered again with values. */
module Templates {
  import opened Wrappers
  import opened Json
  import opened Text
  import opened Sorting
  import opened Placeholders
  import opened ParameterOrder

  predicate Usable(order: seq<string>, values: Values) {
    forall n | n in order :: n in values && values[n] != []
  }

  /** `_replace_literals`: every text, list item and field value; keys are left alone. */
  function ReplaceLiterals(value: Json, order: seq<string>, values: Values): Json
    requires Usable(order, values)
  {
    match value
    case Text(s) => Text(Parameterised(s, order, values))
    case List(items) => List(seq(|items|, i requires 0 <= i < |items| => ReplaceLiterals(items[i], order, values)))
    case Object(fields) => Object(map k | k in fields :: ReplaceLiterals(fields[k], order, values))
    case _ => value
  }

  function ReplacePlaceholders(value: Json, order: seq<string>, values: Values): Json
    requires forall n | n in order :: n in values
  {
    match value
    case Text(s) => Text(Rendered(s, order, values))
    case List(items) => List(seq(|items|, i requires 0 <= i < |items| => ReplacePlaceholders(items[i], order, values)))
    case Object(fields) => Object(map k | k in fields :: ReplacePlaceholders(fields[k], order, values))
    case _ => value
  }

  /** No text anywhere in the value has a placeholder of a parameter. */
  ghost predicate UnmarkedValue(value: Json, values: Values) {
    match value
    case Text(s) => Unmarked(s, values)
    case List(items) => forall i | 0 <= i < |items| :: UnmarkedValue(items[i], values)
    case Object(fields) => forall k | k in fields :: UnmarkedValue(fields[k], values)
    case _ => true
  }

  /** What rendering a parameterised value with its own literals gives: the value back, if
      the parameters are in order and none of its texts has a placeholder of theirs; and
      only then, if no literal occurs in a name at all. */
  ghost predicate TripIs(same: bool, unmarked: bool, there: seq<string>, values: Values)
    requires Known(there, values)
  {
    && (InOrder(there, values) && unmarked ==> same)
    && (Safe(values) ==> (same <==> unmarked))
  }

  lemma {:induction false} ValueRoundTripIff(value: Json, there: seq<string>, back: seq<string>, values: Values)
    requires Clean(values) && Names(there) == values.Keys == Names(back)
    requires Usable(there, values) && forall n | n in back :: n in values
    ensures TripIs(ReplacePlaceholders(ReplaceLiterals(value, there, values), back, values) == value,
      UnmarkedValue(value, values), there, values)
  {
    hide Clean, Safe, InOrder, Unmarked, Parameterised, Rendered;
    match value
    case Text(s) => TextTrip(s, there, back, values);
    case List(items) =>
      forall i | 0 <= i < |items|
        ensures TripIs(ReplacePlaceholders(ReplaceLiterals(items[i], there, values), back, values) == items[i],
          UnmarkedValue(items[i], values), there, values)
      {
        ValueRoundTripIff(items[i], there, back, values);
      }
    case Object(fields) =>
      forall k | k in fields
        ensures TripIs(ReplacePlaceholders(ReplaceLiterals(fields[k], there, values), back, values) == fields[k],
          UnmarkedValue(fields[k], values), there, values)
      {
        ValueRoundTripIff(fields[k], there, back, values);
      }
    case _ =>
  }

  lemma TextTrip(s: string, there: seq<string>, back: seq<string>, values: Values)
    requires Clean(values) && Names(there) == values.Keys == Names(back)
    requires Usable(there, values) && forall n | n in back :: n in values
    ensures TripIs(Rendered(Parameterised(s, there, values), back, values) == s, Unmarked(s, values), there, values)
  {
    hide Clean, InOrder, Unmarked, Contains;
    if InOrder(there, values) && Unmarked(s, values) {
      UnmarkedReturns(s, there, back, values);
    }
    if Safe(values) {
      TextRoundTripIff(s, there, back, values);
    }
  }

  // ----------------------------------------------------------------------- the store

  datatype Template = Template(definition: Json, parameters: seq<string>, source: (string, string, nat))

  type Files = map<string, Template>

  /** Ids and definitions are checked by a pattern and by the definition's validators. */
  datatype Checks = Checks(id: string -> bool, definition: Json -> bool)

  datatype Outcome =
    | Created(template: Template)
    | RenderedAs(definition: Json)
    | InvalidId
    | AlreadyExists
    | EmptyParameter
    | InvalidDefinition
    | NotFound
    | Mismatch(missing: seq<string>, extra: seq<string>)

  function Creating(checks: Checks, files: Files, id: string, payload: Json, source: (string, string, nat),
                    order: seq<string>, values: Values): (Files, Outcome)
    requires forall n | n in order :: n in values
  {
    if !checks.id(id) then (files, InvalidId)
    else if id in files then (files, AlreadyExists)
    else if exists n | n in order :: n == [] || values[n] == [] then (files, EmptyParameter)
    else
      var definition := ReplaceLiterals(payload, order, values);
      if !checks.definition(definition) then (files, InvalidDefinition)
      else
        var template := Template(definition, SortedTexts(set n | n in order), source);
        (files[id := template], Created(template))
  }

  function Rendering(checks: Checks, files: Files, id: string, order: seq<string>, values: Values): Outcome
    requires forall n | n in order :: n in values
  {
    if !checks.id(id) then InvalidId
    else if id !in files then NotFound
    else
      var expected, supplied := (set n | n in files[id].parameters), (set n | n in order);
      if expected != supplied then Mismatch(SortedTexts(expected - supplied), SortedTexts(supplied - expected))
      else
        var definition := ReplacePlaceholders(files[id].definition, order, values);
        if checks.definition(definition) then RenderedAs(definition) else InvalidDefinition
  }

  class ScenarioTemplateStore {
    var files: Files

    constructor ()
      ensures files == map[]
    {
      files := map[];
    }

    method Create(checks: Checks, id: string, payload: Json, source: (string, string, nat), order: seq<string>,
                  values: Values)
      returns (outcome: Outcome)
      requires forall n | n in order :: n in values
      modifies this
      ensures (files, outcome) == Creating(checks, old(files), id, payload, source, order, values)
    {
      if !checks.id(id) {
        return InvalidId;
      }
      if id in files {
        return AlreadyExists;
      }
      if exists n | n in order :: n == [] || values[n] == [] {
        return EmptyParameter;
      }
      var definition := ReplaceLiterals(payload, order, values);
      if !checks.definition(definition) {
        return InvalidDefinition;
      }
      var template := Template(definition, SortedTexts(set n | n in order), source);
      files := files[id := template];
      outcome := Created(template);
    }

    method Render(checks: Checks, id: string, order: seq<string>, values: Values) returns (outcome: Outcome)
      requires forall n | n in order :: n in values
      ensures outcome == Rendering(checks, files, id, order, values)
    {
      if !checks.id(id) {
        return InvalidId;
      }
      if id !in files {
        return NotFound;
      }
      var template := files[id];
      var expected, supplied := (set n | n in template.parameters), (set n | n in order);
      if expected != supplied {
        return Mismatch(SortedTexts(expected - supplied), SortedTexts(supplied - expected));
      }
      var definition := ReplacePlaceholders(template.definition, order, values);
      outcome := if checks.definition(definition) then RenderedAs(definition) else InvalidDefinition;
    }
  }

  datatype Creation = Creation(
    id: string, payload: Json, source: (string, string, nat), order: seq<string>, values: Values)

  ghost predicate Proper(c: Creation) { forall n | n in c.order :: n in c.values }

  /** The store after any further creations. */
  ghost function CreateAll(checks: Checks, files: Files, creations: seq<Creation>): Files
    requires forall i | 0 <= i < |creations| :: Proper(creations[i])
  {
    if creations == [] then files else
      var c := creations[|creations| - 1];
      assert Proper(c);
      Creating(checks, CreateAll(checks, files, creations[..|creations| - 1]), c.id, c.payload, c.source, c.order,
        c.values).0
  }

  /** A stored template is never replaced. */
  lemma {:induction false} TemplatesLast(checks: Checks, files: Files, creations: seq<Creation>, id: string)
    requires (forall i | 0 <= i < |creations| :: Proper(creations[i])) && id in files
    ensures id in CreateAll(checks, files, creations) && CreateAll(checks, files, creations)[id] == files[id]
    decreases |creations|
  {
    hide ReplaceLiterals, SortedTexts;
    if creations != [] {
      assert Proper(creations[|creations| - 1]);
      TemplatesLast(checks, files, creations[..|creations| - 1], id);
    }
  }

  lemma CreatedTemplate(checks: Checks, files: Files, id: string, payload: Json, source: (string, string, nat),
                        order: seq<string>, values: Values)
    requires forall n | n in order :: n in values
    requires Creating(checks, files, id, payload, source, order, values).1.Created?
    ensures checks.id(id) && Usable(order, values)
    ensures var created := Creating(checks, files, id, payload, source, order, values).0;
      id in created
      && created[id] == Template(ReplaceLiterals(payload, order, values), SortedTexts(set n | n in order), source)
  {
    hide ReplaceLiterals, SortedTexts;
  }

  /** A template created from a valid definition, whatever is created afterwards, renders
      with the original literals to that definition if the parameters are in order and no
      text of it has a placeholder of theirs; exactly then, if no literal is in a name. */
  lemma CreateThenRenderIff(checks: Checks, files: Files, id: string, payload: Json, source: (string, string, nat),
                            there: seq<string>, values: Values, since: seq<Creation>, back: seq<string>)
    requires Clean(values) && Names(there) == values.Keys == Names(back) && checks.definition(payload)
    requires (forall n | n in there :: n in values) && forall n | n in back :: n in values
    requires Creating(checks, files, id, payload, source, there, values).1.Created?
    requires forall i | 0 <= i < |since| :: Proper(since[i])
    ensures var later := CreateAll(checks, Creating(checks, files, id, payload, source, there, values).0, since);
      TripIs(Rendering(checks, later, id, back, values) == RenderedAs(payload), UnmarkedValue(payload, values), there,
        values)
  {
    hide Clean, TripIs, UnmarkedValue, ReplaceLiterals, ReplacePlaceholders, SortedTexts, CreateAll, Creating;
    CreatedTemplate(checks, files, id, payload, source, there, values);
    NonEmptyLiterals(values);
    assert Usable(there, values);
    ValueRoundTripIff(payload, there, back, values);
    SortedTextsMembers(set n | n in there);
    var created := Creating(checks, files, id, payload, source, there, values).0;
    TemplatesLast(checks, created, since, id);
    assert (set n | n in created[id].parameters) == Names(there) == (set n | n in back);
  }
}
