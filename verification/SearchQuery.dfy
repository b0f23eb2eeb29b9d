/** The log viewer's search language: `Parse` and `readToken` of pkg/search/parser.go,
    and `Query` and `quoteValue` of internal/domain/search_query.go, which write a filter
    back into the syntax it was parsed from. Sorting and UUIDs are the library's. */
module SearchQuery {
  import opened Prelude

  // ----- filters ----------------------------------------------------------------

  datatype Scope = Scope(
    user: string, device: string, os: string, appVersion: string, sdkVersion: string, installation: string)

  /** `Since` is left out: it is the time of parsing less the window. */
  datatype Filter = Filter(
    levels: seq<string>,
    tags: seq<string>,
    excludeTags: seq<string>,
    text: string,
    network: Option<bool>,
    sessionId: Option<Uuid>,
    requestId: Option<Uuid>,
    fingerprint: Option<string>,
    window: string,
    scope: Scope)

  datatype Uuid = Uuid(text: string)

  datatype Library = Library(sort: seq<string> -> seq<string>, parseUuid: string -> Option<Uuid>)

  const EMPTY: Filter := Filter([], [], [], "", None, None, None, None, "", Scope("", "", "", "", "", ""))

  datatype Problem =
    | UnclosedQuote | UnknownField | NotNegatable | MissingValue | BadLevel | BadWindow | BadIs | BadUuid
    | BareNegation

  datatype Result<T> = Ok(value: T) | Err(position: nat, problem: Problem)

  const LEVELS: seq<string> := ["info", "debug", "warning", "error", "fatal", "verbose", "system"]
  const WINDOWS: seq<string> := ["1h", "24h", "7d", "30d"]

  // ----- tokens -----------------------------------------------------------------

  predicate IsSeparator(c: char) {
    c == ' ' || c == '\t'
  }

  datatype Read = Unclosed | Token(text: string, next: nat)

  function Prepend(s: string, r: Read): Read {
    if r.Unclosed? then r else Token(s + r.text, r.next)
  }

  /** A token from position i on, outside quotes. */
  function Outside(q: string, i: nat): (r: Read)
    requires i <= |q|
    ensures r.Token? ==> i <= r.next <= |q| && (r.next < |q| ==> IsSeparator(q[r.next]))
    decreases |q| - i
  {
    if i == |q| || IsSeparator(q[i]) then Token("", i)
    else if q[i] == '"' then Inside(q, i + 1)
    else Prepend([q[i]], Outside(q, i + 1))
  }

  /** The same inside a quoted run: a backslash escapes the character after it. */
  function Inside(q: string, i: nat): (r: Read)
    requires i <= |q|
    ensures r.Token? ==> i < r.next <= |q| && (r.next < |q| ==> IsSeparator(q[r.next]))
    decreases |q| - i
  {
    if i == |q| then Unclosed
    else if q[i] == '\\' && i + 1 < |q| then Prepend([q[i + 1]], Inside(q, i + 2))
    else if q[i] == '"' then Outside(q, i + 1)
    else Prepend([q[i]], Inside(q, i + 1))
  }

  /** `readToken`. */
  method ReadToken(q: string, start: nat) returns (r: Read, leadingQuote: bool)
    requires start < |q|
    ensures r == Outside(q, start) && leadingQuote == (q[start] == '"')
  {
    var i := start;
    leadingQuote := q[i] == '"';
    var b := "";
    while i < |q| && !IsSeparator(q[i])
      invariant i <= |q|
      invariant Outside(q, start) == Prepend(b, Outside(q, i))
      decreases |q| - i
    {
      if q[i] != '"' {
        PrependTwice(b, [q[i]], Outside(q, i + 1));
        b := b + [q[i]];
        i := i + 1;
      } else {
        i := i + 1;
        while true
          invariant i <= |q|
          invariant Outside(q, start) == Prepend(b, Inside(q, i))
          decreases |q| - i
        {
          if i >= |q| {
            return Unclosed, leadingQuote;
          }
          if q[i] == '\\' && i + 1 < |q| {
            PrependTwice(b, [q[i + 1]], Inside(q, i + 2));
            b := b + [q[i + 1]];
            i := i + 2;
          } else if q[i] == '"' {
            i := i + 1;
            break;
          } else {
            PrependTwice(b, [q[i]], Inside(q, i + 1));
            b := b + [q[i]];
            i := i + 1;
          }
        }
      }
    }
    r := Token(b, i);
  }

  lemma PrependTwice(a: string, b: string, r: Read)
    ensures Prepend(a, Prepend(b, r)) == Prepend(a + b, r)
  {
    if r.Token? {
      Regroup(a, b, r.text);
    }
  }

  // ----- Parse ------------------------------------------------------------------

  datatype State = State(filter: Filter, texts: seq<string>)

  function ColonAt(token: string, i: nat): (r: int)
    requires i <= |token|
    ensures r == -1 || (i <= r < |token| && token[r] == ':' && forall k :: i <= k < r ==> token[k] != ':')
    ensures r == -1 ==> forall k :: i <= k < |token| ==> token[k] != ':'
    decreases |token| - i
  {
    if i == |token| then -1 else if token[i] == ':' then i else ColonAt(token, i + 1)
  }

  datatype Field =
    | Level | Tag | Is | Session | Request | Last | Fingerprint | User | Device | Os | AppVersion | SdkVersion
    | Installation

  function FieldName(f: Field): string {
    match f
    case Level => "level" case Tag => "tag" case Is => "is" case Session => "session"
    case Request => "request" case Last => "last" case Fingerprint => "fingerprint" case User => "user"
    case Device => "device" case Os => "os" case AppVersion => "app_version"
    case SdkVersion => "sdk_version" case Installation => "installation"
  }

  function FieldNamed(name: string): Option<Field> {
    if name == "level" then Some(Level) else if name == "tag" then Some(Tag)
    else if name == "is" then Some(Is) else if name == "session" then Some(Session)
    else if name == "request" then Some(Request) else if name == "last" then Some(Last)
    else if name == "fingerprint" then Some(Fingerprint) else if name == "user" then Some(User)
    else if name == "device" then Some(Device) else if name == "os" then Some(Os)
    else if name == "app_version" then Some(AppVersion) else if name == "sdk_version" then Some(SdkVersion)
    else if name == "installation" then Some(Installation) else None
  }

  function AddNew(s: seq<string>, x: string): seq<string> {
    if x in s then s else s + [x]
  }

  /** The switch over the fields, for a value that is not empty. */
  function SetField(lib: Library, f: Filter, field: Field, value: string, negated: bool, at: nat): Result<Filter> {
    match field
    case Level => if value in LEVELS then Ok(f.(levels := AddNew(f.levels, value))) else Err(at, BadLevel)
    case Tag =>
      if negated then Ok(f.(excludeTags := AddNew(f.excludeTags, value)))
      else Ok(f.(tags := AddNew(f.tags, value)))
    case Last => if value in WINDOWS then Ok(f.(window := value)) else Err(at, BadWindow)
    case Is => if value == "network" then Ok(f.(network := Some(true))) else Err(at, BadIs)
    case Fingerprint => Ok(f.(fingerprint := Some(value)))
    case Session =>
      var id := lib.parseUuid(value);
      if id.Some? then Ok(f.(sessionId := id)) else Err(at, BadUuid)
    case Request =>
      var id := lib.parseUuid(value);
      if id.Some? then Ok(f.(requestId := id)) else Err(at, BadUuid)
    case User => Ok(f.(scope := f.scope.(user := value)))
    case Device => Ok(f.(scope := f.scope.(device := value)))
    case Os => Ok(f.(scope := f.scope.(os := value)))
    case AppVersion => Ok(f.(scope := f.scope.(appVersion := value)))
    case SdkVersion => Ok(f.(scope := f.scope.(sdkVersion := value)))
    case Installation => Ok(f.(scope := f.scope.(installation := value)))
  }

  function Negated(token: string): bool {
    |token| > 1 && token[0] == '-'
  }

  /** One token taken in. */
  function Take(lib: Library, s: State, token: string, leadingQuote: bool, start: nat): Result<State> {
    if leadingQuote then Ok(if token != "" then s.(texts := s.texts + [token]) else s)
    else
      var negated := Negated(token);
      var body := if negated then token[1..] else token;
      var colon := ColonAt(body, 0);
      if colon > 0 then
        var field := FieldNamed(body[..colon]);
        var value := body[colon + 1..];
        if field.None? then Err(start, UnknownField)
        else if negated && field != Some(Tag) then Err(start, NotNegatable)
        else if value == "" then Err(start + colon + 1, MissingValue)
        else
          var set' := SetField(lib, s.filter, field.value, value, negated, start);
          if set'.Ok? then Ok(s.(filter := set'.value)) else Err(set'.position, set'.problem)
      else if negated then Err(start, BareNegation)
      else Ok(s.(texts := s.texts + [body]))
  }

  function JoinWithSpaces(parts: seq<string>): string {
    if parts == [] then ""
    else if |parts| == 1 then parts[0]
    else parts[0] + " " + JoinWithSpaces(parts[1..])
  }

  function Finish(s: State): Filter {
    if s.texts == [] then s.filter else s.filter.(text := JoinWithSpaces(s.texts))
  }

  /** What is done with a token: its text, whether it opened with a quote, where it was. */
  type Step = (State, string, bool, nat) -> Result<State>

  function Taker(lib: Library): Step {
    (s: State, token: string, leadingQuote: bool, at: nat) => Take(lib, s, token, leadingQuote, at)
  }

  /** The loop of `Parse` from position i on. */
  function ParseFrom(step: Step, q: string, i: nat, s: State): Result<Filter>
    requires i <= |q|
    decreases |q| - i
  {
    if i == |q| then Ok(Finish(s))
    else if IsSeparator(q[i]) then ParseFrom(step, q, i + 1, s)
    else
      var r := Outside(q, i);
      if r.Unclosed? then Err(i, UnclosedQuote)
      else
        var taken := step(s, r.text, q[i] == '"', i);
        if taken.Err? then Err(taken.position, taken.problem)
        else ParseFrom(step, q, r.next, taken.value)
  }

  /** unicode.IsSpace. */
  predicate IsSpace(c: char) {
    || '\U{0009}' <= c <= '\U{000D}' || c == ' ' || c == '\U{0085}' || c == '\U{00A0}' || c == '\U{1680}'
    || '\U{2000}' <= c <= '\U{200A}' || c == '\U{2028}' || c == '\U{2029}' || c == '\U{202F}'
    || c == '\U{205F}' || c == '\U{3000}'
  }

  /** strings.TrimSpace. */
  function Trim(s: string): string
    decreases |s|
  {
    if s == "" then s
    else if IsSpace(s[0]) then Trim(s[1..])
    else if IsSpace(s[|s| - 1]) then Trim(s[..|s| - 1])
    else s
  }

  function ParseSpec(lib: Library, query: string): Result<Filter> {
    ParseFrom(Taker(lib), Trim(query), 0, State(EMPTY, []))
  }

  method Parse(lib: Library, query: string) returns (r: Result<Filter>)
    ensures r == ParseSpec(lib, query)
  {
    var q := Trim(query);
    if q == "" {
      return Ok(EMPTY);
    }
    var s := State(EMPTY, []);
    var i := 0;
    while i < |q|
      invariant i <= |q|
      invariant ParseFrom(Taker(lib), q, i, s) == ParseFrom(Taker(lib), q, 0, State(EMPTY, []))
      decreases |q| - i
    {
      if IsSeparator(q[i]) {
        i := i + 1;
        continue;
      }
      var read, leadingQuote := ReadToken(q, i);
      if read.Unclosed? {
        return Err(i, UnclosedQuote);
      }
      var taken := Take(lib, s, read.text, leadingQuote, i);
      if taken.Err? {
        return Err(taken.position, taken.problem);
      }
      s, i := taken.value, read.next;
    }
    r := Ok(Finish(s));
  }

  // ----- Query ------------------------------------------------------------------

  /** What the tokeniser would split or misread: " \t:\"\\". */
  predicate IsSpecial(c: char) {
    c == ' ' || c == '\t' || c == ':' || c == '"' || c == '\\'
  }

  predicate NeedsQuotes(s: string) {
    exists i :: 0 <= i < |s| && IsSpecial(s[i])
  }

  function EscapeOne(c: char): string {
    if c == '\\' || c == '"' then ['\\', c] else [c]
  }

  /** The replacer: a backslash before every backslash and every quote. */
  function Escape(s: string): string {
    if s == "" then ""
    else EscapeOne(s[0]) + Escape(s[1..])
  }

  function QuoteValue(s: string): string {
    if NeedsQuotes(s) then ['"'] + Escape(s) + ['"'] else s
  }

  /** One term of a query: a prefix, and a value that goes through quoteValue or does not. */
  datatype Term = Term(prefix: string, value: string, quoting: bool)

  function Shown(t: Term): string {
    if t.quoting then QuoteValue(t.value) else t.value
  }

  function Written(t: Term): string {
    t.prefix + Shown(t)
  }

  function FieldTerm(field: Field, value: string, quoting: bool): Term {
    Term(FieldName(field) + ":", value, quoting)
  }

  function Each(prefix: string, values: seq<string>): (terms: seq<Term>)
    ensures |terms| == |values|
    ensures forall i :: 0 <= i < |terms| ==> terms[i] == Term(prefix, values[i], false)
  {
    seq(|values|, i requires 0 <= i < |values| => Term(prefix, values[i], false))
  }

  function When(present: bool, t: Term): seq<Term> {
    if present then [t] else []
  }

  function IdText(id: Option<Uuid>): string {
    if id.Some? then id.value.text else ""
  }

  function ListTerms(lib: Library, f: Filter): seq<Term> {
    Each("level:", lib.sort(f.levels)) + Each("tag:", lib.sort(f.tags)) + Each("-tag:", lib.sort(f.excludeTags))
  }

  function SingleTerms(f: Filter): seq<Term> {
    FlagTerms(f) + LinkTerms(f)
  }

  function FlagTerms(f: Filter): seq<Term> {
    When(f.network == Some(true), FieldTerm(Is, "network", false))
    + When(f.window != "", FieldTerm(Last, f.window, false))
  }

  function LinkTerms(f: Filter): seq<Term> {
    When(f.sessionId.Some?, FieldTerm(Session, IdText(f.sessionId), false))
    + When(f.requestId.Some?, FieldTerm(Request, IdText(f.requestId), false))
    + When(f.fingerprint.Some?, FieldTerm(Fingerprint, f.fingerprint.GetOr(""), true))
  }

  function ScopeTerms(s: Scope): seq<Term> {
    ClientTerms(s) + BuildTerms(s)
  }

  function ClientTerms(s: Scope): seq<Term> {
    When(s.user != "", FieldTerm(User, s.user, true))
    + When(s.device != "", FieldTerm(Device, s.device, true))
    + When(s.os != "", FieldTerm(Os, s.os, true))
  }

  function BuildTerms(s: Scope): seq<Term> {
    When(s.appVersion != "", FieldTerm(AppVersion, s.appVersion, true))
    + When(s.sdkVersion != "", FieldTerm(SdkVersion, s.sdkVersion, true))
    + When(s.installation != "", FieldTerm(Installation, s.installation, true))
  }

  function TextTerm(text: string): seq<Term> {
    When(text != "", Term("", text, true))
  }

  function Terms(lib: Library, f: Filter): seq<Term> {
    ListTerms(lib, f) + SingleTerms(f) + ScopeTerms(f.scope) + TextTerm(f.text)
  }

  function WriteAll(terms: seq<Term>): (r: seq<string>)
    ensures |r| == |terms|
    ensures forall i :: 0 <= i < |r| ==> r[i] == Written(terms[i])
  {
    seq(|terms|, i requires 0 <= i < |terms| => Written(terms[i]))
  }

  function Query(lib: Library, f: Filter): string {
    JoinWithSpaces(WriteAll(Terms(lib, f)))
  }

  // ----- one term read back -----------------------------------------------------

  predicate IsPlain(s: string) {
    forall i :: 0 <= i < |s| ==> !IsSeparator(s[i]) && s[i] != '"'
  }

  /** A term the tokeniser reads as one token: what is not quoted must be plain. */
  predicate Readable(t: Term) {
    IsPlain(t.prefix) && (t.quoting || IsPlain(t.value)) && Written(t) != ""
  }

  /** s stands in q at position i. */
  predicate Stands(q: string, i: nat, s: string)
    decreases |s|
  {
    if s == "" then i <= |q| else i < |q| && q[i] == s[0] && Stands(q, i + 1, s[1..])
  }

  lemma {:induction false} StandsInTwo(q: string, i: nat, a: string, b: string)
    ensures Stands(q, i, a + b) <==> Stands(q, i, a) && Stands(q, i + |a|, b)
    decreases |a|
  {
    if a == "" {
      assert a + b == b;
    } else {
      assert (a + b)[0] == a[0] && (a + b)[1..] == a[1..] + b;
      if i < |q| {
        StandsInTwo(q, i + 1, a[1..], b);
      }
    }
  }

  lemma {:induction false} TailStands(q: string, i: nat)
    requires i <= |q|
    ensures Stands(q, i, q[i..])
    decreases |q| - i
  {
    if i < |q| {
      assert q[i..][1..] == q[i + 1..];
      TailStands(q, i + 1);
    }
  }

  lemma {:induction false} PlainRunReads(q: string, i: nat, s: string)
    requires Stands(q, i, s) && IsPlain(s)
    ensures i + |s| <= |q| && Outside(q, i) == Prepend(s, Outside(q, i + |s|))
    decreases |s|
  {
    if s == "" {
      assert Prepend("", Outside(q, i)) == Outside(q, i);
    } else {
      PlainRunReads(q, i + 1, s[1..]);
      PrependTwice([s[0]], s[1..], Outside(q, i + |s|));
      assert [s[0]] + s[1..] == s;
    }
  }

  lemma {:induction false} QuotedRunReads(q: string, i: nat, s: string)
    requires Stands(q, i, Escape(s)) && i + |Escape(s)| < |q| && q[i + |Escape(s)|] == '"'
    ensures Inside(q, i) == Prepend(s, Outside(q, i + |Escape(s)| + 1))
    decreases |s|
  {
    if s == "" {
      assert Inside(q, i) == Outside(q, i + 1);
    } else {
      StandsInTwo(q, i, EscapeOne(s[0]), Escape(s[1..]));
      QuotedRunReads(q, i + |EscapeOne(s[0])|, s[1..]);
      PrependTwice([s[0]], s[1..], Outside(q, i + |Escape(s)| + 1));
      assert [s[0]] + s[1..] == s;
    }
  }

  lemma UnquotedIsPlain(s: string)
    requires !NeedsQuotes(s)
    ensures IsPlain(s) && forall i :: 0 <= i < |s| ==> s[i] != ':'
  {
    forall i | 0 <= i < |s|
      ensures !IsSeparator(s[i]) && s[i] != '"' && s[i] != ':'
    {
      assert !IsSpecial(s[i]);
    }
  }

  lemma QuotedValueReads(q: string, k: nat, v: string)
    requires Stands(q, k, QuoteValue(v))
    ensures k + |QuoteValue(v)| <= |q| && Outside(q, k) == Prepend(v, Outside(q, k + |QuoteValue(v)|))
  {
    if NeedsQuotes(v) {
      StandsInTwo(q, k, ['"'] + Escape(v), ['"']);
      StandsInTwo(q, k, ['"'], Escape(v));
      QuotedRunReads(q, k + 1, v);
    } else {
      UnquotedIsPlain(v);
      PlainRunReads(q, k, v);
    }
  }

  lemma ValueReads(q: string, k: nat, t: Term)
    requires t.quoting || IsPlain(t.value)
    requires Stands(q, k, Shown(t))
    requires k + |Shown(t)| < |q| ==> IsSeparator(q[k + |Shown(t)|])
    ensures k + |Shown(t)| <= |q| && Outside(q, k) == Token(t.value, k + |Shown(t)|)
  {
    if t.quoting {
      QuotedValueReads(q, k, t.value);
    } else {
      PlainRunReads(q, k, t.value);
    }
    assert t.value + "" == t.value;
  }

  /** The term stands in q at i, and q goes on with a space or not at all. */
  predicate StandsAt(q: string, i: nat, t: Term) {
    Stands(q, i, Written(t)) && (i + |Written(t)| < |q| ==> IsSeparator(q[i + |Written(t)|]))
  }

  /** A term followed by a space or the end is read as its prefix and its value, however
      its value was quoted. */
  lemma TermReads(q: string, i: nat, t: Term)
    requires Readable(t) && StandsAt(q, i, t)
    ensures i + |Written(t)| <= |q| && Outside(q, i) == Token(t.prefix + t.value, i + |Written(t)|)
  {
    StandsInTwo(q, i, t.prefix, Shown(t));
    PlainRunReads(q, i, t.prefix);
    ValueReads(q, i + |t.prefix|, t);
  }

  // ----- all terms read back ------------------------------------------------------

  predicate StartsWithQuote(t: Term) {
    t.prefix == "" && NeedsQuotes(t.value) && t.quoting
  }

  function TakeTerm(step: Step, s: State, t: Term): Result<State> {
    step(s, t.prefix + t.value, StartsWithQuote(t), 0)
  }

  function TakeAll(step: Step, s: State, terms: seq<Term>): Option<State>
    decreases |terms|
  {
    if terms == [] then Some(s)
    else
      var first := TakeTerm(step, s, terms[0]);
      if first.Ok? then TakeAll(step, first.value, terms[1..]) else None
  }

  lemma {:induction false} TakeAllInTwoSteps(step: Step, s: State, a: seq<Term>, b: seq<Term>)
    ensures TakeAll(step, s, a + b) ==
            match TakeAll(step, s, a) case None => None case Some(m) => TakeAll(step, m, b)
    decreases |a|
  {
    if a == [] {
      assert a + b == b;
    } else {
      assert (a + b)[1..] == a[1..] + b;
      var first := TakeTerm(step, s, a[0]);
      if first.Ok? {
        TakeAllInTwoSteps(step, first.value, a[1..], b);
      }
    }
  }

  /** Where a token stood shows in errors only. */
  ghost predicate OnlyErrorsKnowWhere(step: Step) {
    forall s, token, leadingQuote, start ::
      step(s, token, leadingQuote, start).Ok? || step(s, token, leadingQuote, 0).Ok? ==>
        step(s, token, leadingQuote, start) == step(s, token, leadingQuote, 0)
  }

  lemma TakerIgnoresPlace(lib: Library)
    ensures OnlyErrorsKnowWhere(Taker(lib))
  {
    var step := Taker(lib);
    forall s, token, leadingQuote, start |
      step(s, token, leadingQuote, start).Ok? || step(s, token, leadingQuote, 0).Ok?
      ensures step(s, token, leadingQuote, start) == step(s, token, leadingQuote, 0)
    {}
  }

  lemma FirstCharacter(t: Term)
    requires Readable(t)
    ensures !IsSeparator(Written(t)[0]) && (Written(t)[0] == '"' <==> StartsWithQuote(t))
  {
    if t.prefix != "" {
      assert Written(t)[0] == t.prefix[0];
    } else if t.quoting && !NeedsQuotes(t.value) {
      UnquotedIsPlain(t.value);
    }
  }

  /** The parser at a token. */
  lemma ParsesToken(step: Step, q: string, i: nat, s: State, text: string, next: nat)
    requires i < |q| && !IsSeparator(q[i]) && Outside(q, i) == Token(text, next) && next <= |q|
    ensures var taken := step(s, text, q[i] == '"', i);
            ParseFrom(step, q, i, s) ==
            if taken.Err? then Err(taken.position, taken.problem) else ParseFrom(step, q, next, taken.value)
  {}

  lemma ParsesOneTerm(step: Step, q: string, i: nat, s: State, t: Term, after: State)
    requires OnlyErrorsKnowWhere(step) && Readable(t) && StandsAt(q, i, t)
    requires TakeTerm(step, s, t) == Ok(after)
    ensures i + |Written(t)| <= |q| && ParseFrom(step, q, i, s) == ParseFrom(step, q, i + |Written(t)|, after)
  {
    TermReads(q, i, t);
    FirstCharacter(t);
    assert q[i] == Written(t)[0];
  }

  /** These terms are what is left of q from i on. */
  predicate RestIs(q: string, i: nat, terms: seq<Term>) {
    var rest := JoinWithSpaces(WriteAll(terms));
    Stands(q, i, rest) && i + |rest| == |q|
  }

  lemma FirstStands(q: string, i: nat, terms: seq<Term>)
    requires terms != [] && RestIs(q, i, terms)
    ensures StandsAt(q, i, terms[0])
    ensures var end := i + |Written(terms[0])|;
            if |terms| == 1 then end == |q|
            else end < |q| && q[end] == ' ' && RestIs(q, end + 1, terms[1..])
  {
    var w := Written(terms[0]);
    assert WriteAll(terms)[1..] == WriteAll(terms[1..]);
    if |terms| > 1 {
      var more := JoinWithSpaces(WriteAll(terms[1..]));
      StandsInTwo(q, i, w + " ", more);
      StandsInTwo(q, i, w, " ");
    }
  }

  /** Behind its first term the query goes on with the next one. */
  lemma BehindFirst(step: Step, q: string, i: nat, s: State, terms: seq<Term>) returns (next: nat)
    requires terms != [] && RestIs(q, i, terms)
    ensures StandsAt(q, i, terms[0]) && i + |Written(terms[0])| <= |q|
    ensures next <= |q| && RestIs(q, next, terms[1..])
    ensures ParseFrom(step, q, i + |Written(terms[0])|, s) == ParseFrom(step, q, next, s)
  {
    var end := i + |Written(terms[0])|;
    FirstStands(q, i, terms);
    if |terms| > 1 {
      next := end + 1;
    } else {
      next := end;
      assert terms[1..] == [];
    }
  }

  lemma TakeAllUnfolds(step: Step, s: State, terms: seq<Term>) returns (after: State)
    requires terms != [] && TakeAll(step, s, terms).Some?
    ensures TakeTerm(step, s, terms[0]) == Ok(after)
    ensures TakeAll(step, s, terms) == TakeAll(step, after, terms[1..])
  {
    after := TakeTerm(step, s, terms[0]).value;
  }

  /** The first term is taken in, and the parser stands before the next. */
  lemma ParsesFirstTerm(step: Step, q: string, i: nat, s: State, terms: seq<Term>, after: State) returns (next: nat)
    requires terms != [] && i <= |q| && RestIs(q, i, terms)
    requires OnlyErrorsKnowWhere(step) && Readable(terms[0]) && TakeTerm(step, s, terms[0]) == Ok(after)
    ensures next <= |q| && RestIs(q, next, terms[1..])
    ensures ParseFrom(step, q, i, s) == ParseFrom(step, q, next, after)
  {
    next := BehindFirst(step, q, i, after, terms);
    ParsesOneTerm(step, q, i, s, terms[0], after);
  }

  lemma {:induction false} ParsesAllTerms(step: Step, q: string, i: nat, s: State, terms: seq<Term>)
    requires i <= |q| && RestIs(q, i, terms)
    requires OnlyErrorsKnowWhere(step) && forall t :: t in terms ==> Readable(t)
    requires TakeAll(step, s, terms).Some?
    ensures ParseFrom(step, q, i, s) == Ok(Finish(TakeAll(step, s, terms).value))
    decreases |terms|
  {
    if terms != [] {
      assert terms[0] in terms;
      var after := TakeAllUnfolds(step, s, terms);
      var next := ParsesFirstTerm(step, q, i, s, terms, after);
      ParsesAllTerms(step, q, next, after, terms[1..]);
    }
  }

  // ----- the filter read back --------------------------------------------------------

  lemma {:induction false} ColonBehindName(name: string, rest: string, i: nat)
    requires i <= |name| && forall k :: 0 <= k < |name| ==> name[k] != ':'
    ensures ColonAt(name + ":" + rest, i) == |name|
    decreases |name| - i
  {
    var token := name + ":" + rest;
    if i < |name| {
      assert token[i] == name[i];
      ColonBehindName(name, rest, i + 1);
    } else {
      assert token[i] == ':';
    }
  }

  lemma FieldNamesAreNames(f: Field)
    ensures FieldName(f) != "" && FieldName(f)[0] != '-' && FieldNamed(FieldName(f)) == Some(f)
  {}

  predicate IsWord(s: string) {
    forall k :: 0 <= k < |s| ==> 'a' <= s[k] <= 'z' || s[k] == '_' || '0' <= s[k] <= '9'
  }

  lemma FieldNamesAreWords(f: Field)
    ensures IsWord(FieldName(f))
  {}

  lemma WordsArePlain(s: string)
    requires IsWord(s)
    ensures IsPlain(s) && forall k :: 0 <= k < |s| ==> s[k] != ':'
  {}

  /** A field's token sets that field. */
  lemma FieldTokenIsTaken(lib: Library, s: State, f: Field, value: string)
    requires value != ""
    ensures Take(lib, s, FieldName(f) + ":" + value, false, 0) ==
            match SetField(lib, s.filter, f, value, false, 0)
            case Ok(filter) => Ok(s.(filter := filter))
            case Err(at, problem) => Err(at, problem)
  {
    var name := FieldName(f);
    var token := name + ":" + value;
    FieldNamesAreNames(f);
    FieldNamesAreWords(f);
    WordsArePlain(name);
    ColonBehindName(name, value, 0);
    assert token[0] == name[0];
    assert token[..|name|] == name && token[|name| + 1..] == value;
  }

  lemma NegatedTagIsTaken(lib: Library, s: State, value: string)
    requires value != ""
    ensures Take(lib, s, "-tag:" + value, false, 0) ==
            Ok(s.(filter := s.filter.(excludeTags := AddNew(s.filter.excludeTags, value))))
  {
    var token := "-tag:" + value;
    var body := token[1..];
    assert body == "tag" + ":" + value;
    FieldNamesAreNames(Tag);
    FieldNamesAreWords(Tag);
    WordsArePlain("tag");
    ColonBehindName("tag", value, 0);
    assert body[..3] == "tag" && body[4..] == value;
  }

  ghost predicate Runs(step: Step, s: State, terms: seq<Term>, after: State) {
    TakeAll(step, s, terms) == Some(after)
  }

  lemma RunsThen(step: Step, s: State, a: seq<Term>, m: State, b: seq<Term>, after: State)
    requires Runs(step, s, a, m) && Runs(step, m, b, after)
    ensures Runs(step, s, a + b, after)
  {
    TakeAllInTwoSteps(step, s, a, b);
  }

  predicate NoRepeats(s: seq<string>) {
    forall i, j :: 0 <= i < j < |s| ==> s[i] != s[j]
  }

  lemma {:induction false} NoRepeatsCounts(s: seq<string>, x: string)
    requires NoRepeats(s)
    ensures multiset(s)[x] <= 1
  {
    if s != [] {
      var n := |s| - 1;
      NoRepeatsCounts(s[..n], x);
      assert s == s[..n] + [s[n]];
      assert s[n] !in s[..n];
    }
  }

  lemma RepeatsCount(s: seq<string>, i: nat, j: nat)
    requires i < j < |s| && s[i] == s[j]
    ensures multiset(s)[s[i]] >= 2
  {
    assert s == s[..j] + s[j..];
    assert s[i] in s[..j] && s[j] in s[j..];
  }

  lemma FreshBehind(a: seq<string>, b: seq<string>)
    requires b != [] && NoRepeats(a + b)
    ensures b[0] !in a
  {
    assert (a + b)[|a|] == b[0];
    assert forall i :: 0 <= i < |a| ==> (a + b)[i] == a[i];
  }

  lemma LevelsAreWords(x: string)
    requires x in LEVELS || x in WINDOWS
    ensures x != "" && IsWord(x)
  {}

  lemma SortedHasNoRepeats(s: seq<string>, sorted: seq<string>)
    requires multiset(s) == multiset(sorted) && NoRepeats(s)
    ensures NoRepeats(sorted)
    ensures forall x :: x in sorted <==> x in s
  {
    forall i, j | 0 <= i < j < |sorted|
      ensures sorted[i] != sorted[j]
    {
      if sorted[i] == sorted[j] {
        RepeatsCount(sorted, i, j);
        NoRepeatsCounts(s, sorted[i]);
        assert false;
      }
    }
    forall x
      ensures x in sorted <==> x in s
    {
      assert x in sorted <==> x in multiset(sorted);
      assert x in s <==> x in multiset(s);
    }
  }

  lemma OneThenEach(step: Step, s: State, prefix: string, values: seq<string>, mid: State, end: State)
    requires values != [] && Runs(step, s, [Term(prefix, values[0], false)], mid)
    requires Runs(step, mid, Each(prefix, values[1..]), end)
    ensures Runs(step, s, Each(prefix, values), end)
  {
    assert Each(prefix, values) == [Term(prefix, values[0], false)] + Each(prefix, values[1..]);
    RunsThen(step, s, [Term(prefix, values[0], false)], mid, Each(prefix, values[1..]), end);
  }

  lemma LevelRead(lib: Library, g: Filter, x: string)
    requires x in LEVELS && x !in g.levels
    ensures Runs(Taker(lib), State(g, []), [Term("level:", x, false)], State(g.(levels := g.levels + [x]), []))
  {
    LevelsAreWords(x);
    assert FieldName(Level) + ":" == "level:";
    FieldTokenIsTaken(lib, State(g, []), Level, x);
  }

  lemma {:induction false} LevelsRead(lib: Library, g: Filter, levels: seq<string>)
    requires NoRepeats(g.levels + levels) && forall x :: x in levels ==> x in LEVELS
    ensures Runs(Taker(lib), State(g, []), Each("level:", levels), State(g.(levels := g.levels + levels), []))
    decreases |levels|
  {
    if levels == [] {
      assert g.levels + levels == g.levels;
    } else {
      var x, rest := levels[0], levels[1..];
      var next := g.(levels := g.levels + [x]);
      assert next.levels + rest == g.levels + levels;
      FreshBehind(g.levels, levels);
      LevelRead(lib, g, x);
      LevelsRead(lib, next, rest);
      OneThenEach(Taker(lib), State(g, []), "level:", levels, State(next, []),
                  State(g.(levels := g.levels + levels), []));
    }
  }

  lemma TagRead(lib: Library, g: Filter, x: string)
    requires x != "" && x !in g.tags
    ensures Runs(Taker(lib), State(g, []), [Term("tag:", x, false)], State(g.(tags := g.tags + [x]), []))
  {
    assert FieldName(Tag) + ":" == "tag:";
    FieldTokenIsTaken(lib, State(g, []), Tag, x);
  }

  lemma {:induction false} TagsRead(lib: Library, g: Filter, tags: seq<string>)
    requires NoRepeats(g.tags + tags) && "" !in tags
    ensures Runs(Taker(lib), State(g, []), Each("tag:", tags), State(g.(tags := g.tags + tags), []))
    decreases |tags|
  {
    if tags == [] {
      assert g.tags + tags == g.tags;
    } else {
      var x, rest := tags[0], tags[1..];
      var next := g.(tags := g.tags + [x]);
      assert next.tags + rest == g.tags + tags;
      FreshBehind(g.tags, tags);
      TagRead(lib, g, x);
      TagsRead(lib, next, rest);
      OneThenEach(Taker(lib), State(g, []), "tag:", tags, State(next, []), State(g.(tags := g.tags + tags), []));
    }
  }

  lemma ExcludeRead(lib: Library, g: Filter, x: string)
    requires x != "" && x !in g.excludeTags
    ensures Runs(Taker(lib), State(g, []), [Term("-tag:", x, false)], State(g.(excludeTags := g.excludeTags + [x]), []))
  {
    NegatedTagIsTaken(lib, State(g, []), x);
  }

  lemma {:induction false} ExcludesRead(lib: Library, g: Filter, tags: seq<string>)
    requires NoRepeats(g.excludeTags + tags) && "" !in tags
    ensures Runs(Taker(lib), State(g, []), Each("-tag:", tags), State(g.(excludeTags := g.excludeTags + tags), []))
    decreases |tags|
  {
    if tags == [] {
      assert g.excludeTags + tags == g.excludeTags;
    } else {
      var x, rest := tags[0], tags[1..];
      var next := g.(excludeTags := g.excludeTags + [x]);
      assert next.excludeTags + rest == g.excludeTags + tags;
      FreshBehind(g.excludeTags, tags);
      ExcludeRead(lib, g, x);
      ExcludesRead(lib, next, rest);
      OneThenEach(Taker(lib), State(g, []), "-tag:", tags, State(next, []),
                  State(g.(excludeTags := g.excludeTags + tags), []));
    }
  }

  // ----- the round trip ---------------------------------------------------------------

  /** What is asked of the library: sorting only reorders. */
  ghost predicate SortReorders(lib: Library) {
    forall s :: multiset(lib.sort(s)) == multiset(s)
  }

  /** A tag the tokeniser leaves whole. Tags are not quoted when written. */
  predicate IsCleanTag(tag: string) {
    tag != "" && IsPlain(tag)
  }

  ghost predicate IdReads(lib: Library, id: Option<Uuid>) {
    id.Some? ==> id.value.text != "" && IsPlain(id.value.text) && lib.parseUuid(id.value.text) == id
  }

  /** The filters the syntax can carry. */
  ghost predicate Writable(lib: Library, f: Filter) {
    && NoRepeats(f.levels) && (forall x :: x in f.levels ==> x in LEVELS)
    && NoRepeats(f.tags) && (forall x :: x in f.tags ==> IsCleanTag(x))
    && NoRepeats(f.excludeTags) && (forall x :: x in f.excludeTags ==> IsCleanTag(x))
    && f.network != Some(false)
    && (f.window == "" || f.window in WINDOWS)
    && IdReads(lib, f.sessionId) && IdReads(lib, f.requestId)
    && f.fingerprint != Some("")
    && (Negated(f.text) ==> NeedsQuotes(f.text))
  }

  /** The same filter with its lists sorted, which is all that writing it loses. */
  function Sorted(lib: Library, f: Filter): Filter {
    f.(levels := lib.sort(f.levels), tags := lib.sort(f.tags), excludeTags := lib.sort(f.excludeTags))
  }

  function WithLists(lib: Library, f: Filter): Filter {
    EMPTY.(levels := lib.sort(f.levels), tags := lib.sort(f.tags), excludeTags := lib.sort(f.excludeTags))
  }

  function WithSingles(g: Filter, f: Filter): Filter {
    g.(network := f.network, window := f.window, sessionId := f.sessionId, requestId := f.requestId,
       fingerprint := f.fingerprint)
  }

  lemma ListsRead(lib: Library, f: Filter)
    requires SortReorders(lib) && Writable(lib, f)
    ensures Runs(Taker(lib), State(EMPTY, []), ListTerms(lib, f), State(WithLists(lib, f), []))
  {
    var step := Taker(lib);
    var ls, ts, es := lib.sort(f.levels), lib.sort(f.tags), lib.sort(f.excludeTags);
    SortedHasNoRepeats(f.levels, ls);
    SortedHasNoRepeats(f.tags, ts);
    SortedHasNoRepeats(f.excludeTags, es);
    assert [] + ls == ls && [] + ts == ts && [] + es == es;
    var a := EMPTY.(levels := ls);
    var b := a.(tags := ts);
    LevelsRead(lib, EMPTY, ls);
    TagsRead(lib, a, ts);
    ExcludesRead(lib, b, es);
    RunsThen(step, State(EMPTY, []), Each("level:", ls), State(a, []), Each("tag:", ts), State(b, []));
    RunsThen(step, State(EMPTY, []), Each("level:", ls) + Each("tag:", ts), State(b, []), Each("-tag:", es),
             State(WithLists(lib, f), []));
  }

  lemma FieldTermTaken(lib: Library, g: Filter, field: Field, value: string, quoting: bool, after: Filter)
    requires value != "" && SetField(lib, g, field, value, false, 0) == Ok(after)
    ensures TakeTerm(Taker(lib), State(g, []), FieldTerm(field, value, quoting)) == Ok(State(after, []))
  {
    FieldNamesAreNames(field);
    FieldTokenIsTaken(lib, State(g, []), field, value);
  }

  lemma OneField(lib: Library, g: Filter, present: bool, field: Field, value: string, quoting: bool, after: Filter)
    requires present ==> value != "" && SetField(lib, g, field, value, false, 0) == Ok(after)
    requires !present ==> after == g
    ensures Runs(Taker(lib), State(g, []), When(present, FieldTerm(field, value, quoting)), State(after, []))
  {
    if present {
      FieldTermTaken(lib, g, field, value, quoting, after);
    }
  }

  lemma FlagsRead(lib: Library, f: Filter, g: Filter)
    requires Writable(lib, f) && g.network == None && g.window == ""
    ensures Runs(Taker(lib), State(g, []), FlagTerms(f), State(g.(network := f.network, window := f.window), []))
  {
    var a := g.(network := f.network);
    var b := a.(window := f.window);
    match f.network {
      case None =>
      case Some(on) => assert on || f.network == Some(false);
    }
    if f.window != "" {
      LevelsAreWords(f.window);
    }
    OneField(lib, g, f.network == Some(true), Is, "network", false, a);
    OneField(lib, a, f.window != "", Last, f.window, false, b);
    RunsThen(Taker(lib), State(g, []), When(f.network == Some(true), FieldTerm(Is, "network", false)), State(a, []),
             When(f.window != "", FieldTerm(Last, f.window, false)), State(b, []));
  }

  lemma LinksRead(lib: Library, f: Filter, g: Filter)
    requires Writable(lib, f) && g.sessionId == None && g.requestId == None && g.fingerprint == None
    ensures Runs(Taker(lib), State(g, []), LinkTerms(f),
                 State(g.(sessionId := f.sessionId, requestId := f.requestId, fingerprint := f.fingerprint), []))
  {
    var step, s := Taker(lib), State(g, []);
    var a := g.(sessionId := f.sessionId);
    var b := a.(requestId := f.requestId);
    var c := b.(fingerprint := f.fingerprint);
    OneField(lib, g, f.sessionId.Some?, Session, IdText(f.sessionId), false, a);
    OneField(lib, a, f.requestId.Some?, Request, IdText(f.requestId), false, b);
    OneField(lib, b, f.fingerprint.Some?, Fingerprint, f.fingerprint.GetOr(""), true, c);
    var t1 := When(f.sessionId.Some?, FieldTerm(Session, IdText(f.sessionId), false));
    var t2 := When(f.requestId.Some?, FieldTerm(Request, IdText(f.requestId), false));
    var t3 := When(f.fingerprint.Some?, FieldTerm(Fingerprint, f.fingerprint.GetOr(""), true));
    RunsThen(step, s, t1, State(a, []), t2, State(b, []));
    RunsThen(step, s, t1 + t2, State(b, []), t3, State(c, []));
  }

  lemma SinglesRead(lib: Library, f: Filter, g: Filter)
    requires Writable(lib, f)
    requires g == EMPTY.(levels := g.levels, tags := g.tags, excludeTags := g.excludeTags)
    ensures Runs(Taker(lib), State(g, []), SingleTerms(f), State(WithSingles(g, f), []))
  {
    var m := g.(network := f.network, window := f.window);
    FlagsRead(lib, f, g);
    LinksRead(lib, f, m);
    RunsThen(Taker(lib), State(g, []), FlagTerms(f), State(m, []), LinkTerms(f), State(WithSingles(g, f), []));
  }

  lemma ClientRead(lib: Library, scope: Scope, g: Filter)
    requires g.scope == EMPTY.scope
    ensures Runs(Taker(lib), State(g, []), ClientTerms(scope),
                 State(g.(scope := EMPTY.scope.(user := scope.user, device := scope.device, os := scope.os)), []))
  {
    var step, s := Taker(lib), State(g, []);
    var a := g.(scope := g.scope.(user := scope.user));
    var b := a.(scope := a.scope.(device := scope.device));
    var c := b.(scope := b.scope.(os := scope.os));
    OneField(lib, g, scope.user != "", User, scope.user, true, a);
    OneField(lib, a, scope.device != "", Device, scope.device, true, b);
    OneField(lib, b, scope.os != "", Os, scope.os, true, c);
    var t1 := When(scope.user != "", FieldTerm(User, scope.user, true));
    var t2 := When(scope.device != "", FieldTerm(Device, scope.device, true));
    var t3 := When(scope.os != "", FieldTerm(Os, scope.os, true));
    RunsThen(step, s, t1, State(a, []), t2, State(b, []));
    RunsThen(step, s, t1 + t2, State(b, []), t3, State(c, []));
  }

  lemma BuildRead(lib: Library, scope: Scope, g: Filter)
    requires g.scope == EMPTY.scope.(user := scope.user, device := scope.device, os := scope.os)
    ensures Runs(Taker(lib), State(g, []), BuildTerms(scope), State(g.(scope := scope), []))
  {
    var step, s := Taker(lib), State(g, []);
    var a := g.(scope := g.scope.(appVersion := scope.appVersion));
    var b := a.(scope := a.scope.(sdkVersion := scope.sdkVersion));
    var c := b.(scope := b.scope.(installation := scope.installation));
    OneField(lib, g, scope.appVersion != "", AppVersion, scope.appVersion, true, a);
    OneField(lib, a, scope.sdkVersion != "", SdkVersion, scope.sdkVersion, true, b);
    OneField(lib, b, scope.installation != "", Installation, scope.installation, true, c);
    var t1 := When(scope.appVersion != "", FieldTerm(AppVersion, scope.appVersion, true));
    var t2 := When(scope.sdkVersion != "", FieldTerm(SdkVersion, scope.sdkVersion, true));
    var t3 := When(scope.installation != "", FieldTerm(Installation, scope.installation, true));
    RunsThen(step, s, t1, State(a, []), t2, State(b, []));
    RunsThen(step, s, t1 + t2, State(b, []), t3, State(c, []));
  }

  lemma ScopeRead(lib: Library, scope: Scope, g: Filter)
    requires g.scope == EMPTY.scope
    ensures Runs(Taker(lib), State(g, []), ScopeTerms(scope), State(g.(scope := scope), []))
  {
    var m := g.(scope := EMPTY.scope.(user := scope.user, device := scope.device, os := scope.os));
    ClientRead(lib, scope, g);
    BuildRead(lib, scope, m);
    RunsThen(Taker(lib), State(g, []), ClientTerms(scope), State(m, []), BuildTerms(scope),
             State(g.(scope := scope), []));
  }

  function Gathered(text: string): seq<string> {
    if text == "" then [] else [text]
  }

  lemma TextRead(lib: Library, g: Filter, text: string)
    requires Negated(text) ==> NeedsQuotes(text)
    ensures Runs(Taker(lib), State(g, []), TextTerm(text), State(g, Gathered(text)))
  {
    var t := Term("", text, true);
    assert "" + text == text;
    if text != "" {
      if !NeedsQuotes(text) {
        UnquotedIsPlain(text);
      }
      assert [] + [text] == [text];
      assert TakeTerm(Taker(lib), State(g, []), t) == Ok(State(g, [text]));
    }
  }

  lemma FieldTermIsReadable(field: Field, value: string, quoting: bool)
    requires quoting || IsPlain(value)
    ensures Readable(FieldTerm(field, value, quoting))
  {
    FieldNamesAreWords(field);
    WordsArePlain(FieldName(field));
  }

  lemma EachIsReadable(prefix: string, values: seq<string>)
    requires IsPlain(prefix) && prefix != "" && forall x :: x in values ==> IsPlain(x)
    ensures forall t :: t in Each(prefix, values) ==> Readable(t)
  {}

  lemma ListTermsAreReadable(lib: Library, f: Filter)
    requires SortReorders(lib) && Writable(lib, f)
    ensures AllReadable(ListTerms(lib, f))
  {
    SortedHasNoRepeats(f.levels, lib.sort(f.levels));
    SortedHasNoRepeats(f.tags, lib.sort(f.tags));
    SortedHasNoRepeats(f.excludeTags, lib.sort(f.excludeTags));
    forall x | x in lib.sort(f.levels)
      ensures IsPlain(x)
    {
      LevelsAreWords(x);
      WordsArePlain(x);
    }
    EachIsReadable("level:", lib.sort(f.levels));
    EachIsReadable("tag:", lib.sort(f.tags));
    EachIsReadable("-tag:", lib.sort(f.excludeTags));
  }

  predicate AllReadable(terms: seq<Term>) {
    forall t :: t in terms ==> Readable(t)
  }

  lemma SingleTermsAreReadable(lib: Library, f: Filter)
    requires Writable(lib, f)
    ensures AllReadable(SingleTerms(f))
  {
    if f.window != "" {
      LevelsAreWords(f.window);
      WordsArePlain(f.window);
    }
    OptionalFieldIsReadable(f.network == Some(true), Is, "network", false);
    OptionalFieldIsReadable(f.window != "", Last, f.window, false);
    OptionalFieldIsReadable(f.sessionId.Some?, Session, IdText(f.sessionId), false);
    OptionalFieldIsReadable(f.requestId.Some?, Request, IdText(f.requestId), false);
    OptionalFieldIsReadable(f.fingerprint.Some?, Fingerprint, f.fingerprint.GetOr(""), true);
  }

  lemma OptionalFieldIsReadable(present: bool, field: Field, value: string, quoting: bool)
    requires present ==> quoting || IsPlain(value)
    ensures AllReadable(When(present, FieldTerm(field, value, quoting)))
  {
    if present {
      FieldTermIsReadable(field, value, quoting);
    }
  }

  lemma ScopeTermsAreReadable(s: Scope)
    ensures AllReadable(ScopeTerms(s))
  {
    OptionalFieldIsReadable(s.user != "", User, s.user, true);
    OptionalFieldIsReadable(s.device != "", Device, s.device, true);
    OptionalFieldIsReadable(s.os != "", Os, s.os, true);
    OptionalFieldIsReadable(s.appVersion != "", AppVersion, s.appVersion, true);
    OptionalFieldIsReadable(s.sdkVersion != "", SdkVersion, s.sdkVersion, true);
    OptionalFieldIsReadable(s.installation != "", Installation, s.installation, true);
  }

  lemma AllTermsAreReadable(lib: Library, f: Filter)
    requires SortReorders(lib) && Writable(lib, f)
    ensures AllReadable(Terms(lib, f))
  {
    ListTermsAreReadable(lib, f);
    SingleTermsAreReadable(lib, f);
    ScopeTermsAreReadable(f.scope);
  }

  lemma ParsesWrittenTerms(lib: Library, q: string, terms: seq<Term>, end: State)
    requires q == JoinWithSpaces(WriteAll(terms)) && AllReadable(terms)
    requires Runs(Taker(lib), State(EMPTY, []), terms, end)
    ensures ParseFrom(Taker(lib), q, 0, State(EMPTY, [])) == Ok(Finish(end))
  {
    assert q[0..] == q;
    TailStands(q, 0);
    TakerIgnoresPlace(lib);
    ParsesAllTerms(Taker(lib), q, 0, State(EMPTY, []), terms);
  }

  /** The round trip the toolbar rests on: a filter the syntax can carry, written out
      without white space at either end, is read back as itself, its lists sorted. */
  lemma WrittenFiltersReadBack(lib: Library, f: Filter)
    requires SortReorders(lib) && Writable(lib, f)
    requires Trim(Query(lib, f)) == Query(lib, f)
    ensures ParseSpec(lib, Query(lib, f)) == Ok(Sorted(lib, f))
  {
    TermsRun(lib, f);
    AllTermsAreReadable(lib, f);
    var g := Sorted(lib, f);
    ParsesWrittenTerms(lib, Query(lib, f), Terms(lib, f), State(g.(text := ""), Gathered(g.text)));
  }

  lemma TermsRun(lib: Library, f: Filter)
    requires SortReorders(lib) && Writable(lib, f)
    ensures Runs(Taker(lib), State(EMPTY, []), Terms(lib, f),
                 State(Sorted(lib, f).(text := ""), Gathered(f.text)))
  {
    var step, s := Taker(lib), State(EMPTY, []);
    var a := WithLists(lib, f);
    var b := WithSingles(a, f);
    var c := b.(scope := f.scope);
    ListsRead(lib, f);
    SinglesRead(lib, f, a);
    ScopeRead(lib, f.scope, b);
    TextRead(lib, c, f.text);
    RunsThen(step, s, ListTerms(lib, f), State(a, []), SingleTerms(f), State(b, []));
    RunsThen(step, s, ListTerms(lib, f) + SingleTerms(f), State(b, []), ScopeTerms(f.scope), State(c, []));
    RunsThen(step, s, ListTerms(lib, f) + SingleTerms(f) + ScopeTerms(f.scope), State(c, []), TextTerm(f.text),
             State(c, Gathered(f.text)));
    assert c == Sorted(lib, f).(text := "");
  }
}
