/** What the parser makes of one field, by its name as it is typed, and where it reports the
    first problem of a query. */
module SearchErrors {
  import opened Prelude
  import opened SearchCount
  import opened SearchExact
  import opened SearchQuery

  const NAMES: set<string> := {
    "level", "tag", "is", "session", "request", "last", "fingerprint", "user", "device", "os", "app_version",
    "sdk_version", "installation"
  }

  /** What may stand before a colon: no colon itself, and no dash in front. */
  predicate IsName(name: string) {
    name != "" && name[0] != '-' && forall i :: 0 <= i < |name| ==> name[i] != ':'
  }

  function Typed(negated: bool, name: string, value: string): string {
    (if negated then "-" else "") + (name + ":" + value)
  }

  /** The value a field does not take. */
  predicate IsRefused(lib: Library, name: string, value: string) {
    || (name == "level" && value !in ["info", "debug", "warning", "error", "fatal", "verbose", "system"])
    || (name == "last" && value !in ["1h", "24h", "7d", "30d"])
    || (name == "is" && value != "network")
    || ((name == "session" || name == "request") && lib.parseUuid(value).None?)
  }

  lemma NamesAreFields(name: string)
    ensures name in NAMES <==> FieldNamed(name).Some?
  {}

  lemma TypedIsSplit(negated: bool, name: string, value: string)
    requires IsName(name)
    ensures var token := Typed(negated, name, value);
            && Negated(token) == negated
            && (if negated then token[1..] else token) == name + ":" + value
            && ColonAt(name + ":" + value, 0) == |name|
            && (name + ":" + value)[..|name|] == name && (name + ":" + value)[|name| + 1..] == value
  {
    ColonBehindName(name, value, 0);
    assert ("-" + (name + ":" + value))[1..] == name + ":" + value;
    assert "" + (name + ":" + value) == name + ":" + value;
  }

  function ProblemWith(name: string): Problem {
    if name == "level" then BadLevel else if name == "last" then BadWindow else if name == "is" then BadIs else BadUuid
  }

  lemma ValuesAreRefused(lib: Library, f: Filter, name: string, value: string, negated: bool, at: nat)
    requires name in NAMES && FieldNamed(name).Some?
    ensures var r := SetField(lib, f, FieldNamed(name).value, value, negated, at);
            && (r.Err? <==> IsRefused(lib, name, value))
            && (r.Err? ==> r.position == at && r.problem == ProblemWith(name))
  {}

  lemma UnknownNamesAreRefused(lib: Library, s: State, negated: bool, name: string, value: string, at: nat)
    requires IsName(name) && name !in NAMES
    ensures Take(lib, s, Typed(negated, name, value), false, at) == Err(at, UnknownField)
  {
    TypedIsSplit(negated, name, value);
    NamesAreFields(name);
  }

  lemma OtherNegationsAreRefused(lib: Library, s: State, name: string, value: string, at: nat)
    requires IsName(name) && name in NAMES && name != "tag"
    ensures Take(lib, s, Typed(true, name, value), false, at) == Err(at, NotNegatable)
  {
    TypedIsSplit(true, name, value);
    NamesAreFields(name);
  }

  lemma MissingValuesAreRefused(lib: Library, s: State, negated: bool, name: string, at: nat)
    requires IsName(name) && name in NAMES && (negated ==> name == "tag")
    ensures Take(lib, s, Typed(negated, name, ""), false, at) == Err(at + |name| + 1, MissingValue)
  {
    TypedIsSplit(negated, name, "");
    NamesAreFields(name);
  }

  lemma FieldsTake(lib: Library, s: State, negated: bool, name: string, value: string, at: nat)
    requires IsName(name) && name in NAMES && (negated ==> name == "tag") && value != ""
    ensures FieldNamed(name).Some?
    ensures var set' := SetField(lib, s.filter, FieldNamed(name).value, value, negated, at);
            Take(lib, s, Typed(negated, name, value), false, at) ==
            if set'.Ok? then Ok(s.(filter := set'.value)) else Err(set'.position, set'.problem)
  {
    TypedIsSplit(negated, name, value);
    NamesAreFields(name);
  }

  /** Which fields are refused, why, and where: an unknown name; a dash before another field
      than a tag; no value, behind the colon; and a value the field does not take. */
  lemma FieldsAreRefusedExactly(lib: Library, s: State, negated: bool, name: string, value: string, at: nat)
    requires IsName(name)
    ensures var r := Take(lib, s, Typed(negated, name, value), false, at);
            if name !in NAMES then r == Err(at, UnknownField)
            else if negated && name != "tag" then r == Err(at, NotNegatable)
            else if value == "" then r == Err(at + |name| + 1, MissingValue)
            else if IsRefused(lib, name, value) then r == Err(at, ProblemWith(name))
            else r.Ok?
  {
    if name !in NAMES {
      UnknownNamesAreRefused(lib, s, negated, name, value, at);
    } else if negated && name != "tag" {
      OtherNegationsAreRefused(lib, s, name, value, at);
    } else if value == "" {
      MissingValuesAreRefused(lib, s, negated, name, at);
    } else {
      FieldsTake(lib, s, negated, name, value, at);
      ValuesAreRefused(lib, s.filter, name, value, negated, at);
    }
  }

  /** The filter with this field set: a level or a tag is added unless it is there, and of
      everything else the last one counts. */
  function Assigned(lib: Library, f: Filter, name: string, value: string, negated: bool): Filter
    requires !IsRefused(lib, name, value)
  {
    match name
    case "level" => if value in f.levels then f else f.(levels := f.levels + [value])
    case "tag" =>
      if negated then if value in f.excludeTags then f else f.(excludeTags := f.excludeTags + [value])
      else if value in f.tags then f else f.(tags := f.tags + [value])
    case "is" => f.(network := Some(true))
    case "session" => f.(sessionId := lib.parseUuid(value))
    case "request" => f.(requestId := lib.parseUuid(value))
    case "last" => f.(window := value)
    case "fingerprint" => f.(fingerprint := Some(value))
    case "user" => f.(scope := f.scope.(user := value))
    case "device" => f.(scope := f.scope.(device := value))
    case "os" => f.(scope := f.scope.(os := value))
    case "app_version" => f.(scope := f.scope.(appVersion := value))
    case "sdk_version" => f.(scope := f.scope.(sdkVersion := value))
    case "installation" => f.(scope := f.scope.(installation := value))
    case _ => f
  }

  lemma ValuesAreAssigned(lib: Library, f: Filter, name: string, value: string, negated: bool, at: nat)
    requires name in NAMES && FieldNamed(name).Some? && !IsRefused(lib, name, value)
    ensures SetField(lib, f, FieldNamed(name).value, value, negated, at) == Ok(Assigned(lib, f, name, value, negated))
  {}

  /** What a field that is not refused sets, whatever was set before, and nothing else. */
  lemma FieldsSetWhatTheySay(lib: Library, s: State, negated: bool, name: string, value: string, at: nat)
    requires IsName(name) && name in NAMES && (negated ==> name == "tag") && value != "" && !IsRefused(lib, name, value)
    ensures Take(lib, s, Typed(negated, name, value), false, at)
            == Ok(s.(filter := Assigned(lib, s.filter, name, value, negated)))
  {
    FieldsTake(lib, s, negated, name, value, at);
    ValuesAreAssigned(lib, s.filter, name, value, negated, at);
  }

  /** A dash before anything but a field. */
  lemma WordsAreNotNegated(lib: Library, s: State, word: string, at: nat)
    requires word != "" && forall i :: 0 <= i < |word| ==> word[i] != ':'
    ensures Take(lib, s, "-" + word, false, at) == Err(at, BareNegation)
  {
    assert ("-" + word)[1..] == word;
  }

  // ----- the first problem ---------------------------------------------------------------

  /** How far these terms reach, with a space behind each. */
  function LengthOf(terms: seq<Term>): nat {
    if terms == [] then 0 else |Written(terms[0])| + 1 + LengthOf(terms[1..])
  }

  lemma ParserPassesOne(step: Step, q: string, i: nat, s: State, t: Term, back: seq<Term>, after: State)
    returns (next: nat)
    requires i <= |q| && RestIs(q, i, [t] + back) && back != []
    requires OnlyErrorsKnowWhere(step) && Readable(t) && TakeTerm(step, s, t) == Ok(after)
    ensures next == i + |Written(t)| + 1 && next <= |q| && RestIs(q, next, back)
    ensures ParseFrom(step, q, i, s) == ParseFrom(step, q, next, after)
  {
    var terms := [t] + back;
    assert terms[1..] == back;
    FirstStands(q, i, terms);
    ParsesOneTerm(step, q, i, s, t, after);
    next := i + |Written(t)| + 1;
  }

  lemma TakesFirstOf(step: Step, s: State, front: seq<Term>, after: State) returns (mid: State)
    requires front != [] && AllReadable(front) && TakeAll(step, s, front) == Some(after)
    ensures Readable(front[0]) && AllReadable(front[1..])
    ensures TakeTerm(step, s, front[0]) == Ok(mid) && TakeAll(step, mid, front[1..]) == Some(after)
  {
    assert front[0] in front;
    mid := TakeAllUnfolds(step, s, front);
  }

  /** Terms that can be taken in are passed over. */
  lemma {:induction false} ParserReaches(
    step: Step, q: string, i: nat, s: State, front: seq<Term>, back: seq<Term>, after: State) returns (at: nat)
    requires i <= |q| && RestIs(q, i, front + back) && back != []
    requires OnlyErrorsKnowWhere(step) && AllReadable(front) && TakeAll(step, s, front) == Some(after)
    ensures at == i + LengthOf(front) && at <= |q| && RestIs(q, at, back)
    ensures ParseFrom(step, q, i, s) == ParseFrom(step, q, at, after)
    decreases |front|
  {
    if front == [] {
      at := i;
      assert front + back == back;
    } else {
      var mid := TakesFirstOf(step, s, front, after);
      assert front + back == [front[0]] + (front[1..] + back);
      var next := ParserPassesOne(step, q, i, s, front[0], front[1..] + back, mid);
      at := ParserReaches(step, q, next, mid, front[1..], back, after);
    }
  }

  lemma TakeReportsWhere(lib: Library, s: State, token: string, leadingQuote: bool, at: nat)
    ensures var r := Take(lib, s, token, leadingQuote, 0);
            r.Err? ==> Take(lib, s, token, leadingQuote, at) == Err(at + r.position, r.problem)
  {}

  lemma TermIsReported(lib: Library, q: string, at: nat, s: State, t: Term)
    requires Readable(t) && StandsAt(q, at, t) && at <= |q| && TakeTerm(Taker(lib), s, t).Err?
    ensures var problem := TakeTerm(Taker(lib), s, t);
            ParseFrom(Taker(lib), q, at, s) == Err(at + problem.position, problem.problem)
  {
    TermReads(q, at, t);
    FirstCharacter(t);
    assert q[at] == Written(t)[0];
    ParsesToken(Taker(lib), q, at, s, t.prefix + t.value, at + |Written(t)|);
    TakeReportsWhere(lib, s, t.prefix + t.value, StartsWithQuote(t), at);
  }

  lemma WholeQueryStands(terms: seq<Term>)
    ensures RestIs(JoinWithSpaces(WriteAll(terms)), 0, terms)
  {
    var q := JoinWithSpaces(WriteAll(terms));
    assert q[0..] == q;
    TailStands(q, 0);
  }

  lemma TightIsParsedWhole(lib: Library, q: string)
    requires Trim(q) == q
    ensures ParseSpec(lib, q) == ParseFrom(Taker(lib), q, 0, State(EMPTY, []))
  {}

  /** A query is parsed up to its first term that cannot be taken in as if it were not there. */
  lemma ParsedUpTo(lib: Library, q: string, front: seq<Term>, back: seq<Term>, after: State) returns (at: nat)
    requires q == JoinWithSpaces(WriteAll(front + back)) && Trim(q) == q && back != []
    requires AllReadable(front) && TakeAll(Taker(lib), State(EMPTY, []), front) == Some(after)
    ensures at == LengthOf(front) && at <= |q| && RestIs(q, at, back)
    ensures ParseSpec(lib, q) == ParseFrom(Taker(lib), q, at, after)
  {
    WholeQueryStands(front + back);
    TightIsParsedWhole(lib, q);
    TakerIgnoresPlace(lib);
    at := ParserReaches(Taker(lib), q, 0, State(EMPTY, []), front, back, after);
  }

  /** A query is refused for its first term that cannot be taken in, whatever follows, and by
      where in the query that term stands. */
  lemma FirstProblemIsReported(lib: Library, q: string, front: seq<Term>, t: Term, rest: seq<Term>, after: State)
    requires q == JoinWithSpaces(WriteAll(front + ([t] + rest))) && Trim(q) == q
    requires AllReadable(front) && Readable(t)
    requires TakeAll(Taker(lib), State(EMPTY, []), front) == Some(after) && TakeTerm(Taker(lib), after, t).Err?
    ensures var problem := TakeTerm(Taker(lib), after, t);
            ParseSpec(lib, q) == Err(LengthOf(front) + problem.position, problem.problem)
  {
    var at := ParsedUpTo(lib, q, front, [t] + rest, after);
    FirstEnds(q, at, [t] + rest);
    TermIsReported(lib, q, at, after, t);
  }

  lemma {:induction false} QuoteStaysOpen(q: string, i: nat)
    requires i <= |q| && forall k :: i <= k < |q| ==> q[k] != '"'
    ensures Inside(q, i).Unclosed?
    decreases |q| - i
  {
    if i < |q| {
      if q[i] == '\\' && i + 1 < |q| {
        QuoteStaysOpen(q, i + 2);
      } else {
        QuoteStaysOpen(q, i + 1);
      }
    }
  }

  /** The last quote of the query, in a token that starts at i and has none before. */
  predicate OpensAt(q: string, i: nat, quote: nat) {
    && i <= quote < |q| && q[quote] == '"' && (forall k :: quote < k < |q| ==> q[k] != '"')
    && forall k :: i <= k < quote ==> !IsSeparator(q[k]) && q[k] != '"'
  }

  lemma {:induction false} OpenQuoteIsMet(q: string, i: nat, quote: nat)
    requires OpensAt(q, i, quote)
    ensures Outside(q, i).Unclosed?
    decreases quote - i
  {
    if i == quote {
      QuoteStaysOpen(q, i + 1);
    } else {
      OpenQuoteIsMet(q, i + 1, quote);
    }
  }

  /** A quote that is not closed is reported where its token starts. */
  lemma UnclosedQuoteIsReported(
    lib: Library, q: string, front: seq<Term>, rest: seq<Term>, after: State, quote: nat)
    requires q == JoinWithSpaces(WriteAll(front + rest)) && Trim(q) == q && rest != []
    requires AllReadable(front) && TakeAll(Taker(lib), State(EMPTY, []), front) == Some(after)
    requires OpensAt(q, LengthOf(front), quote)
    ensures ParseSpec(lib, q) == Err(LengthOf(front), UnclosedQuote)
  {
    var at := ParsedUpTo(lib, q, front, rest, after);
    OpenQuoteIsMet(q, at, quote);
  }
}
