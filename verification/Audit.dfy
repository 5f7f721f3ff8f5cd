/** The audit log: lines chained by hashes, appended by any number of writers. */
module Audit {
  import opened Wrappers

  /** The fields a caller supplies; times are left out. */
  datatype Content = Content(
    requestId: string, subject: string, role: string, keyId: Option<string>, verb: string, path: string,
    statusCode: int, outcome: string)

  /** What is signed. */
  datatype Event = Event(sequence: nat, previousHash: Option<string>, algorithm: string, content: Content)

  /** A line is blank, no event with a hash, an event with the hash stored for it, or JSON
      that is neither object nor list. */
  datatype Line = Blank | Unreadable | Entry(event: Event, hash: string) | Scalar

  datatype Verification = Verification(valid: bool, total: nat, lastHash: Option<string>, errorLine: Option<nat>)

  /** How a log signs its events. */
  datatype Scheme = Scheme(sign: Event -> string, algorithm: string)

  // ---------------------------------------------------------------------- the chain

  function LastHash(lines: seq<Line>): Option<string> {
    if lines == [] then None
    else if lines[|lines| - 1].Entry? then Some(lines[|lines| - 1].hash)
    else LastHash(lines[..|lines| - 1])
  }

  function Events(lines: seq<Line>): seq<Event> {
    if lines == [] then [] else
      Events(lines[..|lines| - 1]) + if lines[|lines| - 1].Entry? then [lines[|lines| - 1].event] else []
  }

  /** A line continues the chain of the lines before it. */
  predicate Continues(scheme: Scheme, before: seq<Line>, line: Line) {
    match line
    case Blank => true
    case Unreadable => false
    case Scalar => false
    case Entry(event, hash) =>
      && event.previousHash == LastHash(before)
      && event.algorithm == scheme.algorithm
      && hash == scheme.sign(event)
  }

  ghost predicate ChainedTo(scheme: Scheme, lines: seq<Line>, n: nat)
    requires n <= |lines|
  {
    forall i | 0 <= i < n :: Continues(scheme, lines[..i], lines[i])
  }

  ghost predicate Chained(scheme: Scheme, lines: seq<Line>) { ChainedTo(scheme, lines, |lines|) }

  /** The k-th line is the first not to continue the chain. */
  ghost predicate FirstBroken(scheme: Scheme, lines: seq<Line>, k: nat) {
    k < |lines| && ChainedTo(scheme, lines, k) && !Continues(scheme, lines[..k], lines[k])
  }

  /** Valid exactly when every line continues the chain; otherwise the first that does
      not is named, with what was established before it, unless it is a scalar: there the
      verification itself fails. */
  method VerifyLines(scheme: Scheme, lines: seq<Line>) returns (v: Option<Verification>)
    ensures v == Some(Verification(true, |Events(lines)|, LastHash(lines), None)) <==> Chained(scheme, lines)
    ensures !Chained(scheme, lines) ==> exists k | 0 <= k < |lines| ::
      && FirstBroken(scheme, lines, k)
      && (v == None <==> lines[k].Scalar?)
      && (v.Some? ==> v.value == Verification(false, |Events(lines[..k])|, LastHash(lines[..k]), Some(k + 1)))
  {
    var previous := None;
    var total := 0;
    for i := 0 to |lines|
      invariant ChainedTo(scheme, lines, i)
      invariant previous == LastHash(lines[..i]) && total == |Events(lines[..i])|
    {
      assert lines[..i + 1][..i] == lines[..i];
      match lines[i]
      case Blank =>
      case Unreadable =>
        assert FirstBroken(scheme, lines, i);
        return Some(Verification(false, total, previous, Some(i + 1)));
      case Scalar =>
        assert FirstBroken(scheme, lines, i);
        return None;
      case Entry(event, hash) =>
        if event.previousHash != previous || event.algorithm != scheme.algorithm || hash != scheme.sign(event) {
          assert FirstBroken(scheme, lines, i);
          return Some(Verification(false, total, previous, Some(i + 1)));
        }
        total := total + 1;
        previous := Some(hash);
    }
    assert lines[..|lines|] == lines;
    v := Some(Verification(true, total, previous, None));
  }

  // ------------------------------------------------------------------------ writers

  function NextEvent(scheme: Scheme, lines: seq<Line>, content: Content): Event {
    Event(|Events(lines)| + 1, LastHash(lines), scheme.algorithm, content)
  }

  function Appended(scheme: Scheme, lines: seq<Line>, content: Content): seq<Line> {
    var event := NextEvent(scheme, lines, content);
    lines + [Entry(event, scheme.sign(event))]
  }

  class LogFile {
    var lines: seq<Line>

    constructor ()
      ensures lines == []
    {
      lines := [];
    }
  }

  /** One writer, with its own memory of where the chain ended. */
  class AuditLog {
    const file: LogFile
    const scheme: Scheme
    var sequence: nat
    var lastHash: Option<string>
    var usable: bool

    /** Opening a broken log fails. */
    constructor (file: LogFile, scheme: Scheme)
      ensures this.file == file && this.scheme == scheme
      ensures usable <==> Chained(scheme, file.lines)
      ensures usable ==> sequence == |Events(file.lines)| && lastHash == LastHash(file.lines)
    {
      var v := VerifyLines(scheme, file.lines);
      this.file, this.scheme := file, scheme;
      usable := v.Some? && v.value.valid;
      sequence := if v.Some? then v.value.total else 0;
      lastHash := if v.Some? then v.value.lastHash else None;
    }

    /** Verifies the file as it is now, whoever wrote to it, and appends one event. */
    method Append(content: Content) returns (event: Option<Event>)
      modifies this, file
      ensures event.Some? <==> old(Chained(scheme, file.lines))
      ensures event == None ==> file.lines == old(file.lines)
      ensures event.Some? ==>
        && event.value == NextEvent(scheme, old(file.lines), content)
        && file.lines == Appended(scheme, old(file.lines), content)
        && sequence == event.value.sequence && lastHash == LastHash(file.lines)
    {
      var v := VerifyLines(scheme, file.lines);
      if v == None || !v.value.valid {
        return None;
      }
      sequence := v.value.total;
      lastHash := v.value.lastHash;
      var next := Event(sequence + 1, lastHash, scheme.algorithm, content);
      file.lines := file.lines + [Entry(next, scheme.sign(next))];
      sequence := next.sequence;
      lastHash := Some(scheme.sign(next));
      event := Some(next);
    }
  }

  /** The log after a list of appends, whichever writer made each of them. */
  function Log(scheme: Scheme, contents: seq<Content>): seq<Line> {
    if contents == [] then [] else Appended(scheme, Log(scheme, contents[..|contents| - 1]), contents[|contents| - 1])
  }

  lemma AppendedChained(scheme: Scheme, lines: seq<Line>, content: Content)
    requires Chained(scheme, lines)
    ensures Chained(scheme, Appended(scheme, lines, content))
  {
    var after := Appended(scheme, lines, content);
    forall i | 0 <= i < |after| ensures Continues(scheme, after[..i], after[i]) {
      if i < |lines| {
        assert after[..i] == lines[..i];
        assert Continues(scheme, lines[..i], lines[i]);
      } else {
        assert after[..i] == lines;
      }
    }
  }

  /** Every such log verifies, and its events are the contents in order, numbered 1 to n. */
  lemma {:induction false} LogIsNumbered(scheme: Scheme, contents: seq<Content>)
    ensures Chained(scheme, Log(scheme, contents))
    ensures |Events(Log(scheme, contents))| == |contents|
    ensures forall i | 0 <= i < |contents| ::
      Events(Log(scheme, contents))[i].sequence == i + 1 && Events(Log(scheme, contents))[i].content == contents[i]
    decreases |contents|
  {
    hide Chained, Events, Appended;
    if contents == [] {
      EmptyLog(scheme);
    } else {
      var front, last := contents[..|contents| - 1], contents[|contents| - 1];
      LogIsNumbered(scheme, front);
      AppendedChained(scheme, Log(scheme, front), last);
      AppendedEvents(scheme, Log(scheme, front), last);
    }
  }

  lemma EmptyLog(scheme: Scheme)
    ensures Chained(scheme, []) && Events([]) == []
  {
  }

  lemma AppendedEvents(scheme: Scheme, lines: seq<Line>, content: Content)
    ensures Events(Appended(scheme, lines, content)) == Events(lines) + [NextEvent(scheme, lines, content)]
  {
    var after := Appended(scheme, lines, content);
    assert after[..|after| - 1] == lines;
  }

  // --------------------------------------------------------------- tamper evidence

  ghost predicate Injective(sign: Event -> string) { forall a, b | sign(a) == sign(b) :: a == b }

  lemma ChainedFront(scheme: Scheme, lines: seq<Line>, n: nat)
    requires Chained(scheme, lines) && n <= |lines|
    ensures Chained(scheme, lines[..n])
  {
    var front := lines[..n];
    forall i | 0 <= i < n ensures Continues(scheme, front[..i], front[i]) {
      assert front[..i] == lines[..i];
      assert Continues(scheme, lines[..i], lines[i]);
    }
  }

  /** The last hash is that of the last event; without events there is none. */
  lemma {:induction false} LastHashSigns(scheme: Scheme, lines: seq<Line>)
    requires Chained(scheme, lines)
    ensures LastHash(lines).Some? <==> Events(lines) != []
    ensures Events(lines) != [] ==>
      LastHash(lines) == Some(scheme.sign(Events(lines)[|Events(lines)| - 1]))
    decreases |lines|
  {
    if lines != [] {
      assert Continues(scheme, lines[..|lines| - 1], lines[|lines| - 1]);
      ChainedFront(scheme, lines, |lines| - 1);
      LastHashSigns(scheme, lines[..|lines| - 1]);
    }
  }

  /** The lines before the last event. */
  lemma {:induction false} BeforeLast(scheme: Scheme, lines: seq<Line>) returns (front: seq<Line>)
    requires Chained(scheme, lines) && Events(lines) != []
    ensures |front| < |lines| && Chained(scheme, front)
    ensures Events(lines) == Events(front) + [Events(lines)[|Events(lines)| - 1]]
    ensures Events(lines)[|Events(lines)| - 1].previousHash == LastHash(front)
    decreases |lines|
  {
    ChainedFront(scheme, lines, |lines| - 1);
    if lines[|lines| - 1].Entry? {
      front := lines[..|lines| - 1];
      assert Continues(scheme, front, lines[|lines| - 1]);
    } else {
      front := BeforeLast(scheme, lines[..|lines| - 1]);
    }
  }

  /** With signatures that tell events apart, the last hash of a valid log determines all
      of its events. */
  lemma {:induction false} LastHashDetermines(scheme: Scheme, a: seq<Line>, b: seq<Line>)
    requires Injective(scheme.sign) && Chained(scheme, a) && Chained(scheme, b)
    requires LastHash(a) == LastHash(b)
    ensures Events(a) == Events(b)
    decreases |a|
  {
    hide Chained, Events, LastHash;
    LastHashSigns(scheme, a);
    LastHashSigns(scheme, b);
    if Events(a) != [] {
      var before := BeforeLast(scheme, a);
      var other := BeforeLast(scheme, b);
      var x, y := Events(a)[|Events(a)| - 1], Events(b)[|Events(b)| - 1];
      assert scheme.sign(x) == scheme.sign(y);
      LastHashDetermines(scheme, before, other);
    }
  }

  /** No line from `from` up to `to` is an event. */
  ghost predicate NoEntry(lines: seq<Line>, from: nat, to: nat)
    requires to <= |lines|
  {
    forall i | from <= i < to :: !lines[i].Entry?
  }

  lemma {:induction false} LastHashAt(lines: seq<Line>, k: nat, n: nat)
    requires k < n <= |lines| && lines[k].Entry? && NoEntry(lines, k + 1, n)
    ensures LastHash(lines[..n]) == Some(lines[k].hash)
    decreases n
  {
    assert lines[..n][..n - 1] == lines[..n - 1];
    if n > k + 1 {
      LastHashAt(lines, k, n - 1);
    }
  }

  lemma {:induction false} NoHash(lines: seq<Line>, n: nat)
    requires n <= |lines| && NoEntry(lines, 0, n)
    ensures LastHash(lines[..n]) == None
    decreases n
  {
    if n > 0 {
      assert lines[..n][..n - 1] == lines[..n - 1];
      NoHash(lines, n - 1);
    }
  }

  /** Line k is the last event before line i. */
  ghost predicate LastEntry(lines: seq<Line>, k: nat, i: nat)
    requires i <= |lines|
  {
    k < i && lines[k].Entry? && NoEntry(lines, k + 1, i)
  }

  /** Neither unreadable nor scalar, and if an event, signed as it stands by the log's
      algorithm and naming the hash of the event before it. */
  ghost predicate Links(scheme: Scheme, lines: seq<Line>, i: nat)
    requires i < |lines|
  {
    && !lines[i].Unreadable? && !lines[i].Scalar?
    && (lines[i].Entry? ==>
          && lines[i].event.algorithm == scheme.algorithm
          && lines[i].hash == scheme.sign(lines[i].event)
          && (NoEntry(lines, 0, i) ==> lines[i].event.previousHash == None)
          && (forall k: nat | LastEntry(lines, k, i) :: lines[i].event.previousHash == Some(lines[k].hash)))
  }

  lemma {:induction false} EntryBefore(lines: seq<Line>, i: nat)
    requires i <= |lines|
    ensures NoEntry(lines, 0, i) || exists k: nat :: LastEntry(lines, k, i)
    decreases i
  {
    if i > 0 {
      if lines[i - 1].Entry? {
        assert LastEntry(lines, i - 1, i);
      } else {
        EntryBefore(lines, i - 1);
        var before := i - 1;
        if k: nat :| LastEntry(lines, k, before) {
          assert LastEntry(lines, k, i);
        }
      }
    }
  }

  lemma ContinuesIff(scheme: Scheme, lines: seq<Line>, i: nat)
    requires i < |lines|
    ensures Continues(scheme, lines[..i], lines[i]) <==> Links(scheme, lines, i)
  {
    if NoEntry(lines, 0, i) {
      NoHash(lines, i);
    }
    forall k: nat | LastEntry(lines, k, i) ensures LastHash(lines[..i]) == Some(lines[k].hash) {
      LastHashAt(lines, k, i);
    }
    EntryBefore(lines, i);
  }

  /** A log verifies exactly when each of its lines links to those before it. */
  lemma ChainedIff(scheme: Scheme, lines: seq<Line>)
    ensures Chained(scheme, lines) <==> forall i | 0 <= i < |lines| :: Links(scheme, lines, i)
  {
    hide Continues, Links;
    forall i: nat | i < |lines| ensures Continues(scheme, lines[..i], lines[i]) <==> Links(scheme, lines, i) {
      ContinuesIff(scheme, lines, i);
    }
  }

  /** Altering an event breaks the chain at that line or at the next event. */
  lemma AlteredEventBreaks(scheme: Scheme, lines: seq<Line>, k: nat, altered: Line, next: nat)
    requires Injective(scheme.sign) && Chained(scheme, lines)
    requires k < next < |lines| && lines[k].Entry? && lines[next].Entry? && NoEntry(lines, k + 1, next)
    requires altered.Entry? && altered.event != lines[k].event
    ensures var changed := lines[k := altered];
      !Continues(scheme, changed[..k], changed[k]) || !Continues(scheme, changed[..next], changed[next])
  {
    var changed := lines[k := altered];
    assert Continues(scheme, lines[..k], lines[k]) && Continues(scheme, lines[..next], lines[next]);
    assert NoEntry(changed, k + 1, next);
    LastHashAt(lines, k, next);
    LastHashAt(changed, k, next);
  }

  /** What the chain alone cannot show: events missing from the end. */
  lemma TruncationStaysValid(scheme: Scheme, lines: seq<Line>, n: nat)
    requires Chained(scheme, lines) && n <= |lines|
    ensures Chained(scheme, lines[..n])
    ensures Injective(scheme.sign) && LastHash(lines[..n]) == LastHash(lines) ==> Events(lines[..n]) == Events(lines)
  {
    ChainedFront(scheme, lines, n);
    if Injective(scheme.sign) && LastHash(lines[..n]) == LastHash(lines) {
      LastHashDetermines(scheme, lines[..n], lines);
    }
  }
}
