/** Which templates and renderings are refused, and what a stored template records. */
module TemplateOutcomes {
  import opened Wrappers
  import opened Json
  import opened Text
  import opened Sorting
  import opened Placeholders
  import opened Templates

  /** These names, each once, in ascending order. */
  ghost predicate Listed(list: seq<string>, names: set<string>) {
    && (forall n :: n in list <==> n in names)
    && forall i, j | 0 <= i < j < |list| :: TextBefore(list[i], list[j])
  }

  lemma SortedListed(names: set<string>)
    ensures Listed(SortedTexts(names), names)
  {
    SortedTextsAscend(names);
  }

  ghost predicate EmptyGiven(order: seq<string>, values: Values)
    requires forall n | n in order :: n in values
  {
    exists n | n in order :: n == "" || values[n] == ""
  }

  /** A template is refused for the first that applies of: a bad id, a taken id, an empty name
      or literal, a definition that is no longer valid. Otherwise it is stored with the names
      of its parameters and its source, and no other template changes. */
  lemma CreationOutcome(checks: Checks, files: Files, id: string, payload: Json, source: (string, string, nat),
                        order: seq<string>, values: Values)
    requires forall n | n in order :: n in values
    ensures var (after, outcome) := Creating(checks, files, id, payload, source, order, values);
      match outcome
      case InvalidId => !checks.id(id) && after == files
      case AlreadyExists => checks.id(id) && id in files && after == files
      case EmptyParameter => checks.id(id) && id !in files && EmptyGiven(order, values) && after == files
      case InvalidDefinition =>
        && checks.id(id) && id !in files && !EmptyGiven(order, values) && after == files
        && Usable(order, values) && !checks.definition(ReplaceLiterals(payload, order, values))
      case Created(t) =>
        && checks.id(id) && id !in files && !EmptyGiven(order, values)
        && after.Keys == files.Keys + {id} && after[id] == t
        && (forall other | other in files :: after[other] == files[other])
        && Usable(order, values) && t.definition == ReplaceLiterals(payload, order, values)
        && checks.definition(t.definition)
        && t.source == source && Listed(t.parameters, set n | n in order)
      case _ => false
  {
    hide ReplaceLiterals, SortedTexts, Listed;
    SortedListed(set n | n in order);
  }

  /** A rendering is refused for the first that applies of: a bad id, no such template, a
      parameter missing or too many, each of them named, a definition that is not valid. */
  lemma RenderingOutcome(checks: Checks, files: Files, id: string, order: seq<string>, values: Values)
    requires forall n | n in order :: n in values
    ensures match Rendering(checks, files, id, order, values)
      case InvalidId => !checks.id(id)
      case NotFound => checks.id(id) && id !in files
      case Mismatch(missing, extra) =>
        && checks.id(id) && id in files && (missing != [] || extra != [])
        && Listed(missing, set n | n in files[id].parameters && n !in order)
        && Listed(extra, set n | n in order && n !in files[id].parameters)
      case InvalidDefinition =>
        && checks.id(id) && id in files && (forall n :: n in order <==> n in files[id].parameters)
        && !checks.definition(ReplacePlaceholders(files[id].definition, order, values))
      case RenderedAs(definition) =>
        && checks.id(id) && id in files && (forall n :: n in order <==> n in files[id].parameters)
        && definition == ReplacePlaceholders(files[id].definition, order, values) && checks.definition(definition)
      case _ => false
  {
    hide ReplacePlaceholders, SortedTexts;
    if id in files {
      var expected, supplied := (set n | n in files[id].parameters), (set n | n in order);
      SortedListed(expected - supplied);
      SortedListed(supplied - expected);
      if n :| n in expected - supplied {
        assert n in SortedTexts(expected - supplied);
      }
      if n :| n in supplied - expected {
        assert n in SortedTexts(supplied - expected);
      }
      assert expected - supplied == set n | n in files[id].parameters && n !in order;
      assert supplied - expected == set n | n in order && n !in files[id].parameters;
      if expected == supplied {
        forall n ensures n in order <==> n in files[id].parameters {
          assert n in expected <==> n in supplied;
        }
      }
    }
  }

  // ------------------------------------------------------------------ inside a value

  datatype Step = Item(index: nat) | Field(key: string)

  /** What stands at a place in a value. */
  ghost function At(value: Json, path: seq<Step>): Option<Json>
    decreases |path|
  {
    if path == [] then Some(value) else
      match path[0]
      case Item(i) => if value.List? && i < |value.items| then At(value.items[i], path[1..]) else None
      case Field(k) => if value.Object? && k in value.fields then At(value.fields[k], path[1..]) else None
  }

  /** Lists keep their length, objects their keys, numbers and the like their value. */
  ghost predicate SameForm(before: Json, after: Json) {
    match before
    case Text(_) => after.Text?
    case List(items) => after.List? && |after.items| == |items|
    case Object(fields) => after.Object? && after.fields.Keys == fields.Keys
    case _ => after == before
  }

  /** Wherever a text stands, at any depth, its literals are replaced, and nothing else is. */
  lemma {:induction false} LiteralsReplacedAt(value: Json, path: seq<Step>, order: seq<string>, values: Values)
    requires Usable(order, values)
    ensures match At(value, path)
      case None => At(ReplaceLiterals(value, order, values), path) == None
      case Some(before) =>
        var after := At(ReplaceLiterals(value, order, values), path);
        && after.Some? && SameForm(before, after.value)
        && (before.Text? ==> after.value.text == Parameterised(before.text, order, values))
    decreases |path|
  {
    hide Parameterised;
    if path != [] {
      match path[0]
      case Item(i) =>
        if value.List? && i < |value.items| {
          LiteralsReplacedAt(value.items[i], path[1..], order, values);
        }
      case Field(k) =>
        if value.Object? && k in value.fields {
          LiteralsReplacedAt(value.fields[k], path[1..], order, values);
        }
    }
  }

  lemma {:induction false} PlaceholdersFilledAt(value: Json, path: seq<Step>, order: seq<string>, values: Values)
    requires forall n | n in order :: n in values
    ensures match At(value, path)
      case None => At(ReplacePlaceholders(value, order, values), path) == None
      case Some(before) =>
        var after := At(ReplacePlaceholders(value, order, values), path);
        && after.Some? && SameForm(before, after.value)
        && (before.Text? ==> after.value.text == Rendered(before.text, order, values))
    decreases |path|
  {
    hide Rendered;
    if path != [] {
      match path[0]
      case Item(i) =>
        if value.List? && i < |value.items| {
          PlaceholdersFilledAt(value.items[i], path[1..], order, values);
        }
      case Field(k) =>
        if value.Object? && k in value.fields {
          PlaceholdersFilledAt(value.fields[k], path[1..], order, values);
        }
    }
  }
}
