/** When writing a filter and reading it back loses something: the converse of
    `SearchQuery.WrittenFiltersReadBack`. */
module SearchExact {
  import opened Prelude
  import opened SearchCount
  import opened SearchQuery

  // ----- tokens without quotes -------------------------------------------------------

  predicate AllPlain(parts: seq<string>) {
    forall x :: x in parts ==> IsPlain(x)
  }

  /** What is gathered from tokens without quotes; `loose` when the text may be quoted. */
  predicate Tidy(s: State, loose: bool) {
    && AllPlain(s.filter.tags) && AllPlain(s.filter.excludeTags) && s.filter.text == ""
    && (loose || forall x :: x in s.texts ==> !Negated(x))
  }

  lemma SetFieldTidies(lib: Library, f: Filter, field: Field, value: string, negated: bool, at: nat)
    requires SetField(lib, f, field, value, negated, at).Ok? && IsPlain(value)
    requires AllPlain(f.tags) && AllPlain(f.excludeTags)
    ensures var after := SetField(lib, f, field, value, negated, at).value;
            AllPlain(after.tags) && AllPlain(after.excludeTags) && after.text == f.text
  {}

  lemma TakeTidies(lib: Library, s: State, token: string, at: nat, loose: bool)
    requires Take(lib, s, token, false, at).Ok? && Tidy(s, loose) && IsPlain(token)
    ensures Tidy(Take(lib, s, token, false, at).value, loose)
  {
    var body := if Negated(token) then token[1..] else token;
    var colon := ColonAt(body, 0);
    if colon > 0 {
      var value := body[colon + 1..];
      assert forall k :: 0 <= k < |value| ==> value[k] == token[|token| - |value| + k];
      SetFieldTidies(lib, s.filter, FieldNamed(body[..colon]).value, value, Negated(token), at);
    }
  }

  /** Up to a space or the end, text without quotes is read as one plain token. */
  lemma {:induction false} QuotelessToken(q: string, i: nat, end: nat)
    requires i <= end <= |q| && (end < |q| ==> IsSeparator(q[end])) && forall k :: i <= k < end ==> q[k] != '"'
    ensures var r := Outside(q, i); r.Token? && r.next <= end && IsPlain(r.text)
    decreases end - i
  {
    if i < end && !IsSeparator(q[i]) {
      QuotelessToken(q, i + 1, end);
    }
  }

  /** A stretch without quotes, spaces included, leaves the state tidy. */
  lemma {:induction false} QuotelessStretch(lib: Library, q: string, i: nat, end: nat, s: State, loose: bool)
    returns (after: State)
    requires i <= end <= |q| && (end < |q| ==> IsSeparator(q[end])) && forall k :: i <= k < end ==> q[k] != '"'
    requires ParseFrom(Taker(lib), q, i, s).Ok? && Tidy(s, loose)
    ensures Tidy(after, loose) && ParseFrom(Taker(lib), q, i, s) == ParseFrom(Taker(lib), q, end, after)
    decreases end - i
  {
    if i == end {
      after := s;
    } else if IsSeparator(q[i]) {
      after := QuotelessStretch(lib, q, i + 1, end, s, loose);
    } else {
      QuotelessToken(q, i, end);
      var r := Outside(q, i);
      TakeTidies(lib, s, r.text, i, loose);
      after := QuotelessStretch(lib, q, r.next, end, Take(lib, s, r.text, false, i).value, loose);
    }
  }

  // ----- terms whose tags hold no quotes ------------------------------------------------

  /** A term that cannot put anything but plain tags into the filter: one without quotes,
      a quoted value of another field, or a quoted text. */
  predicate Harmless(t: Term, loose: bool) {
    || Quoteless(Written(t))
    || QuotedField(t)
    || (loose && t.prefix == "" && t.quoting && NeedsQuotes(t.value))
  }

  predicate QuotedField(t: Term) {
    t.quoting && t.value != "" && exists field: Field :: field != Tag && t.prefix == FieldName(field) + ":"
  }

  lemma {:induction false} StandingCharacters(q: string, i: nat, s: string, k: nat)
    requires Stands(q, i, s) && k < |s|
    ensures i + k < |q| && q[i + k] == s[k]
    decreases k
  {
    if k > 0 {
      StandingCharacters(q, i + 1, s[1..], k - 1);
    }
  }

  lemma QuotelessStands(q: string, i: nat, s: string)
    requires Stands(q, i, s) && Quoteless(s)
    ensures i + |s| <= |q| || s == ""
    ensures forall k :: i <= k < i + |s| ==> q[k] != '"'
  {
    forall k | i <= k < i + |s|
      ensures k < |q| && q[k] != '"'
    {
      StandingCharacters(q, i, s, k - i);
    }
    if s != "" {
      StandingCharacters(q, i, s, |s| - 1);
    }
  }

  lemma QuotelessTerm(lib: Library, q: string, i: nat, s: State, t: Term, loose: bool) returns (after: State)
    requires StandsAt(q, i, t) && i + |Written(t)| <= |q| && Quoteless(Written(t))
    requires ParseFrom(Taker(lib), q, i, s).Ok? && Tidy(s, loose)
    ensures Tidy(after, loose)
    ensures ParseFrom(Taker(lib), q, i, s) == ParseFrom(Taker(lib), q, i + |Written(t)|, after)
  {
    QuotelessStands(q, i, Written(t));
    after := QuotelessStretch(lib, q, i, i + |Written(t)|, s, loose);
  }

  /** A readable term is read as one token, and what is read from it is taken in. */
  lemma ReadableTerm(step: Step, q: string, i: nat, s: State, t: Term) returns (after: State)
    requires OnlyErrorsKnowWhere(step) && Readable(t) && StandsAt(q, i, t) && ParseFrom(step, q, i, s).Ok?
    ensures TakeTerm(step, s, t) == Ok(after)
    ensures i + |Written(t)| <= |q|
    ensures ParseFrom(step, q, i, s) == ParseFrom(step, q, i + |Written(t)|, after)
  {
    TermReads(q, i, t);
    FirstCharacter(t);
    assert q[i] == Written(t)[0];
    ParsesToken(step, q, i, s, t.prefix + t.value, i + |Written(t)|);
    assert step(s, t.prefix + t.value, StartsWithQuote(t), i).Ok?;
    after := TakeTerm(step, s, t).value;
  }

  lemma OtherFieldsLeaveTags(lib: Library, f: Filter, field: Field, value: string)
    requires field != Tag && SetField(lib, f, field, value, false, 0).Ok?
    ensures var g := SetField(lib, f, field, value, false, 0).value;
            g.tags == f.tags && g.excludeTags == f.excludeTags && g.text == f.text
  {}

  lemma QuotedTermTidies(lib: Library, s: State, t: Term, loose: bool)
    requires Tidy(s, loose) && TakeTerm(Taker(lib), s, t).Ok?
    requires QuotedField(t) || (loose && t.prefix == "" && t.quoting && NeedsQuotes(t.value))
    ensures Tidy(TakeTerm(Taker(lib), s, t).value, loose)
  {
    if QuotedField(t) {
      var field: Field :| field != Tag && t.prefix == FieldName(field) + ":";
      FieldTokenIsTaken(lib, s, field, t.value);
      OtherFieldsLeaveTags(lib, s.filter, field, t.value);
    }
  }

  lemma QuotedTermIsReadable(t: Term)
    requires QuotedField(t) || (t.prefix == "" && t.quoting && NeedsQuotes(t.value))
    ensures Readable(t)
  {
    if QuotedField(t) {
      var field: Field :| field != Tag && t.prefix == FieldName(field) + ":";
      FieldTermIsReadable(field, t.value, true);
    }
  }

  lemma HarmlessTerm(lib: Library, q: string, i: nat, s: State, t: Term, loose: bool) returns (after: State)
    requires StandsAt(q, i, t) && i + |Written(t)| <= |q| && Harmless(t, loose)
    requires ParseFrom(Taker(lib), q, i, s).Ok? && Tidy(s, loose)
    ensures Tidy(after, loose)
    ensures ParseFrom(Taker(lib), q, i, s) == ParseFrom(Taker(lib), q, i + |Written(t)|, after)
  {
    if Quoteless(Written(t)) {
      after := QuotelessTerm(lib, q, i, s, t, loose);
    } else {
      QuotedTermIsReadable(t);
      TakerIgnoresPlace(lib);
      after := ReadableTerm(Taker(lib), q, i, s, t);
      QuotedTermTidies(lib, s, t, loose);
    }
  }

  predicate AllHarmless(terms: seq<Term>, loose: bool) {
    forall t :: t in terms ==> Harmless(t, loose)
  }

  lemma FirstIsHarmless(terms: seq<Term>, loose: bool)
    requires terms != [] && AllHarmless(terms, loose)
    ensures Harmless(terms[0], loose) && AllHarmless(terms[1..], loose)
  {
    assert terms[0] in terms;
  }

  lemma FirstEnds(q: string, i: nat, terms: seq<Term>)
    requires terms != [] && RestIs(q, i, terms)
    ensures StandsAt(q, i, terms[0]) && i + |Written(terms[0])| <= |q|
  {
    FirstStands(q, i, terms);
  }

  /** The first term leaves the state tidy. */
  lemma HarmlessFirst(lib: Library, q: string, i: nat, s: State, terms: seq<Term>, loose: bool)
    returns (after: State)
    requires terms != [] && i <= |q| && RestIs(q, i, terms) && Harmless(terms[0], loose)
    requires ParseFrom(Taker(lib), q, i, s).Ok? && Tidy(s, loose)
    ensures i + |Written(terms[0])| <= |q| && Tidy(after, loose)
    ensures ParseFrom(Taker(lib), q, i, s) == ParseFrom(Taker(lib), q, i + |Written(terms[0])|, after)
  {
    FirstEnds(q, i, terms);
    after := HarmlessTerm(lib, q, i, s, terms[0], loose);
  }

  /** So tags with spaces in them come back in pieces, and no piece holds a space. */
  lemma {:induction false} HarmlessTerms(
    lib: Library, q: string, i: nat, s: State, terms: seq<Term>, loose: bool) returns (end: State)
    requires i <= |q| && RestIs(q, i, terms) && AllHarmless(terms, loose)
    requires ParseFrom(Taker(lib), q, i, s).Ok? && Tidy(s, loose)
    ensures Tidy(end, loose) && ParseFrom(Taker(lib), q, i, s) == Ok(Finish(end))
    decreases |terms|
  {
    if terms == [] {
      end := s;
    } else {
      FirstIsHarmless(terms, loose);
      var after := HarmlessFirst(lib, q, i, s, terms, loose);
      var next := BehindFirst(Taker(lib), q, i, after, terms);
      end := HarmlessTerms(lib, q, next, after, terms[1..], loose);
    }
  }

  // ----- the end of a query -----------------------------------------------------------

  lemma {:induction false} OnlySeparatorsInside(q: string, i: nat)
    requires i <= |q| && forall k :: i <= k < |q| ==> IsSeparator(q[k])
    ensures Inside(q, i).Unclosed?
    decreases |q| - i
  {
    if i < |q| {
      OnlySeparatorsInside(q, i + 1);
    }
  }

  lemma {:induction false} OutsideIgnoresTheEnd(p: string, rest: string, i: nat)
    requires i <= |p| && forall k :: 0 <= k < |rest| ==> IsSeparator(rest[k])
    ensures Outside(p + rest, i) == Outside(p, i)
    decreases |p| - i
  {
    if i < |p| {
      assert (p + rest)[i] == p[i];
      if p[i] == '"' {
        InsideIgnoresTheEnd(p, rest, i + 1);
      } else if !IsSeparator(p[i]) {
        OutsideIgnoresTheEnd(p, rest, i + 1);
      }
    } else if rest != "" {
      assert (p + rest)[i] == rest[0];
    }
  }

  lemma {:induction false} InsideIgnoresTheEnd(p: string, rest: string, i: nat)
    requires i <= |p| && forall k :: 0 <= k < |rest| ==> IsSeparator(rest[k])
    ensures Inside(p + rest, i) == Inside(p, i)
    decreases |p| - i
  {
    var q := p + rest;
    assert forall k :: |p| <= k < |q| ==> q[k] == rest[k - |p|];
    if i == |p| {
      OnlySeparatorsInside(q, i);
    } else {
      assert q[i] == p[i];
      if p[i] == '\\' && i + 1 < |p| {
        assert q[i + 1] == p[i + 1];
        InsideIgnoresTheEnd(p, rest, i + 2);
      } else if p[i] == '"' {
        OutsideIgnoresTheEnd(p, rest, i + 1);
      } else {
        InsideIgnoresTheEnd(p, rest, i + 1);
        if p[i] == '\\' && rest != "" {
          OnlySeparatorsInside(q, i + 2);
        }
      }
    }
  }

  /** Separators at the end of a query make no difference. */
  lemma {:induction false} ParseIgnoresTheEnd(step: Step, p: string, rest: string, i: nat, s: State)
    requires i <= |p + rest| && forall k :: 0 <= k < |rest| ==> IsSeparator(rest[k])
    ensures ParseFrom(step, p + rest, i, s) == if i <= |p| then ParseFrom(step, p, i, s) else Ok(Finish(s))
    decreases |p + rest| - i
  {
    var q := p + rest;
    if i < |p| {
      assert q[i] == p[i];
      if IsSeparator(p[i]) {
        ParseIgnoresTheEnd(step, p, rest, i + 1, s);
      } else {
        OutsideIgnoresTheEnd(p, rest, i);
        var r := Outside(p, i);
        if r.Token? && step(s, r.text, p[i] == '"', i).Ok? {
          ParseIgnoresTheEnd(step, p, rest, r.next, step(s, r.text, p[i] == '"', i).value);
        }
      }
    } else if i < |q| {
      assert q[i] == rest[i - |p|];
      ParseIgnoresTheEnd(step, p, rest, i + 1, s);
    }
  }

  lemma LastCharacter(t: Term)
    requires Readable(t)
    ensures var w := Written(t); !IsSeparator(w[|w| - 1])
  {
    var w := Written(t);
    if t.value == "" {
      assert !NeedsQuotes(t.value);
      assert w[|w| - 1] == t.prefix[|w| - 1];
    } else if t.quoting && !NeedsQuotes(t.value) {
      UnquotedIsPlain(t.value);
      assert w[|w| - 1] == t.value[|t.value| - 1];
    } else if !t.quoting {
      assert w[|w| - 1] == t.value[|t.value| - 1];
    }
  }

  lemma {:induction false} NoSeparatorAtTheEnds(terms: seq<Term>)
    requires terms != [] && AllReadable(terms)
    ensures var q := JoinWithSpaces(WriteAll(terms));
            q != "" && !IsSeparator(q[0]) && !IsSeparator(q[|q| - 1])
  {
    assert terms[0] in terms;
    FirstCharacter(terms[0]);
    LastCharacter(terms[0]);
    assert WriteAll(terms)[1..] == WriteAll(terms[1..]);
    if |terms| > 1 {
      NoSeparatorAtTheEnds(terms[1..]);
    }
  }

  /** A query that lost no odd white space to trimming is parsed as if it had not been
      trimmed. */
  lemma TrimmingMakesNoDifference(lib: Library, query: string)
    requires query != "" ==> !IsSeparator(query[0])
    requires Count(OddSpace, Trim(query)) == Count(OddSpace, query)
    ensures ParseSpec(lib, query) == ParseFrom(Taker(lib), query, 0, State(EMPTY, []))
  {
    LosslessTrim(query);
    var p, rest := Trim(query), query[|Trim(query)|..];
    assert p + rest == query;
    ParseIgnoresTheEnd(Taker(lib), p, rest, 0, State(EMPTY, []));
  }

  // ----- what every query yields ----------------------------------------------------

  /** What holds of every filter that was parsed. */
  predicate Valid(f: Filter) {
    && NoRepeats(f.levels) && (forall x :: x in f.levels ==> x in LEVELS)
    && NoRepeats(f.tags) && "" !in f.tags
    && NoRepeats(f.excludeTags) && "" !in f.excludeTags
    && f.network != Some(false) && (f.window == "" || f.window in WINDOWS) && f.fingerprint != Some("")
  }

  lemma {:induction false} ParseIsValid(lib: Library, q: string, i: nat, s: State)
    requires i <= |q| && ParseFrom(Taker(lib), q, i, s).Ok? && Valid(s.filter)
    ensures Valid(ParseFrom(Taker(lib), q, i, s).value)
    decreases |q| - i
  {
    if i == |q| {
    } else if IsSeparator(q[i]) {
      ParseIsValid(lib, q, i + 1, s);
    } else {
      var r := Outside(q, i);
      TakeIsValid(lib, s, r.text, q[i] == '"', i);
      ParseIsValid(lib, q, r.next, Take(lib, s, r.text, q[i] == '"', i).value);
    }
  }

  lemma TakeIsValid(lib: Library, s: State, token: string, leadingQuote: bool, at: nat)
    requires Take(lib, s, token, leadingQuote, at).Ok? && Valid(s.filter)
    ensures Valid(Take(lib, s, token, leadingQuote, at).value.filter)
  {
    if !leadingQuote {
      var body := if Negated(token) then token[1..] else token;
      var colon := ColonAt(body, 0);
      if colon > 0 {
        SetFieldIsValid(lib, s.filter, FieldNamed(body[..colon]).value, body[colon + 1..], Negated(token), at);
      }
    }
  }

  lemma SetFieldIsValid(lib: Library, f: Filter, field: Field, value: string, negated: bool, at: nat)
    requires SetField(lib, f, field, value, negated, at).Ok? && Valid(f) && value != ""
    ensures Valid(SetField(lib, f, field, value, negated, at).value)
  {}

  /** So a filter that is not valid, such as one with a level twice or an empty
      fingerprint, is never read back, however it is written. */
  lemma ParsedFiltersAreValid(lib: Library, query: string)
    requires ParseSpec(lib, query).Ok?
    ensures Valid(ParseSpec(lib, query).value)
  {
    ParseIsValid(lib, Trim(query), 0, State(EMPTY, []));
  }

  // ----- reading loses nothing ----------------------------------------------------------

  /** One token more: nothing counted is gained, and the quotes around its runs are lost. */
  lemma TokenWeighs(k: Class, lib: Library, q: string, i: nat, s: State)
    requires i < |q| && Outside(q, i).Token? && Take(lib, s, Outside(q, i).text, q[i] == '"', i).Ok?
    ensures var r := Outside(q, i); var after := Take(lib, s, r.text, q[i] == '"', i).value;
            WeighState(k, after) + Count(k, q[r.next..]) + Dropped(k, Bare, q[i..])
            <= WeighState(k, s) + Count(k, q[i..]) + Dropped(k, Bare, q[r.next..])
  {
    OutsideCounts(k, q, i);
    TakeWeighs(k, lib, s, Outside(q, i).text, q[i] == '"', i);
  }

  /** Reading keeps counted characters or loses them, and loses every quote it drops. */
  lemma {:induction false} ParseWeighs(k: Class, lib: Library, q: string, i: nat, s: State)
    requires i <= |q| && ParseFrom(Taker(lib), q, i, s).Ok?
    ensures Weigh(k, ParseFrom(Taker(lib), q, i, s).value) + Dropped(k, Bare, q[i..])
            <= WeighState(k, s) + Count(k, q[i..])
    decreases |q| - i
  {
    if i == |q| {
      FinishWeighs(k, s);
    } else if IsSeparator(q[i]) {
      CountStep(k, q, i);
      DroppedStep(k, Bare, q, i);
      ParseWeighs(k, lib, q, i + 1, s);
    } else {
      var r := Outside(q, i);
      TokenWeighs(k, lib, q, i, s);
      ParseWeighs(k, lib, q, r.next, Take(lib, s, r.text, q[i] == '"', i).value);
    }
  }

  lemma QueriesWeigh(k: Class, lib: Library, q: string)
    requires ParseFrom(Taker(lib), q, 0, State(EMPTY, [])).Ok?
    ensures Weigh(k, ParseFrom(Taker(lib), q, 0, State(EMPTY, [])).value) + Dropped(k, Bare, q) <= Count(k, q)
  {
    ParseWeighs(k, lib, q, 0, State(EMPTY, []));
    assert WeighState(k, State(EMPTY, [])) == 0;
    assert q[0..] == q;
  }

  /** Sorting hides neither repeats nor entries. */
  lemma SortedIsValid(lib: Library, f: Filter)
    requires SortReorders(lib) && Valid(Sorted(lib, f))
    ensures Valid(f)
    ensures forall x :: x in lib.sort(f.levels) ==> x in LEVELS
    ensures forall x :: x in f.tags ==> x in Sorted(lib, f).tags
    ensures forall x :: x in f.excludeTags ==> x in Sorted(lib, f).excludeTags
  {
    SortedHasNoRepeats(lib.sort(f.levels), f.levels);
    SortedHasNoRepeats(lib.sort(f.tags), f.tags);
    SortedHasNoRepeats(lib.sort(f.excludeTags), f.excludeTags);
  }

  // ----- the exact condition ------------------------------------------------------

  /** No tag holds a quote; tags may hold anything else, spaces included. */
  predicate QuotelessTags(f: Filter) {
    (forall x :: x in f.tags ==> Quoteless(x)) && (forall x :: x in f.excludeTags ==> Quoteless(x))
  }

  lemma QuotelessSum(a: string, b: string)
    requires Quoteless(a) && Quoteless(b)
    ensures Quoteless(a + b)
  {}

  lemma EachIsHarmless(prefix: string, values: seq<string>, loose: bool)
    requires Quoteless(prefix) && forall x :: x in values ==> Quoteless(x)
    ensures AllHarmless(Each(prefix, values), loose)
  {
    forall t | t in Each(prefix, values)
      ensures Harmless(t, loose)
    {
      QuotelessSum(prefix, t.value);
    }
  }

  lemma FieldIsHarmless(present: bool, field: Field, value: string, quoting: bool, loose: bool)
    requires field != Tag && (quoting || IsPlain(value))
    ensures AllHarmless(When(present, FieldTerm(field, value, quoting)), loose)
  {
    var t := FieldTerm(field, value, quoting);
    FieldNamesAreWords(field);
    WordsArePlain(FieldName(field));
    assert IsPlain(t.prefix);
    if !quoting || !NeedsQuotes(value) {
      if quoting {
        UnquotedIsPlain(value);
      }
      QuotelessSum(t.prefix, value);
      assert Written(t) == t.prefix + value;
    } else {
      assert value != "";
      assert QuotedField(t);
    }
  }

  lemma ListTermsAreHarmless(lib: Library, f: Filter, loose: bool)
    requires SortReorders(lib) && QuotelessTags(f) && forall x :: x in lib.sort(f.levels) ==> x in LEVELS
    ensures AllHarmless(ListTerms(lib, f), loose)
  {
    SortedKeeps(f.tags, lib.sort(f.tags));
    SortedKeeps(f.excludeTags, lib.sort(f.excludeTags));
    forall x | x in lib.sort(f.levels)
      ensures Quoteless(x)
    {
      LevelsAreWords(x);
      WordsArePlain(x);
    }
    EachIsHarmless("level:", lib.sort(f.levels), loose);
    EachIsHarmless("tag:", lib.sort(f.tags), loose);
    EachIsHarmless("-tag:", lib.sort(f.excludeTags), loose);
  }

  lemma SortedKeeps(s: seq<string>, sorted: seq<string>)
    requires multiset(s) == multiset(sorted)
    ensures forall x :: x in sorted <==> x in s
  {
    forall x
      ensures x in sorted <==> x in s
    {
      assert x in sorted <==> x in multiset(sorted);
      assert x in s <==> x in multiset(s);
    }
  }

  lemma IdTextIsPlain(s: string)
    requires IsIdText(s)
    ensures IsPlain(s)
  {}

  lemma SingleTermsAreHarmless(lib: Library, f: Filter, loose: bool)
    requires IdsReadBack(lib, f) && (f.window == "" || f.window in WINDOWS)
    ensures AllHarmless(SingleTerms(f), loose)
  {
    if f.window != "" {
      LevelsAreWords(f.window);
      WordsArePlain(f.window);
    }
    if f.sessionId.Some? {
      IdTextIsPlain(IdText(f.sessionId));
    }
    if f.requestId.Some? {
      IdTextIsPlain(IdText(f.requestId));
    }
    FieldIsHarmless(f.network == Some(true), Is, "network", false, loose);
    FieldIsHarmless(f.window != "", Last, f.window, false, loose);
    FieldIsHarmless(f.sessionId.Some?, Session, IdText(f.sessionId), false, loose);
    FieldIsHarmless(f.requestId.Some?, Request, IdText(f.requestId), false, loose);
    FieldIsHarmless(f.fingerprint.Some?, Fingerprint, f.fingerprint.GetOr(""), true, loose);
  }

  lemma ScopeTermsAreHarmless(s: Scope, loose: bool)
    ensures AllHarmless(ScopeTerms(s), loose)
  {
    FieldIsHarmless(s.user != "", User, s.user, true, loose);
    FieldIsHarmless(s.device != "", Device, s.device, true, loose);
    FieldIsHarmless(s.os != "", Os, s.os, true, loose);
    FieldIsHarmless(s.appVersion != "", AppVersion, s.appVersion, true, loose);
    FieldIsHarmless(s.sdkVersion != "", SdkVersion, s.sdkVersion, true, loose);
    FieldIsHarmless(s.installation != "", Installation, s.installation, true, loose);
  }

  lemma TextTermIsHarmless(text: string)
    ensures AllHarmless(TextTerm(text), NeedsQuotes(text))
  {
    if !NeedsQuotes(text) {
      UnquotedIsPlain(text);
      assert "" + text == text;
    }
  }

  lemma TermsAreHarmless(lib: Library, f: Filter)
    requires SortReorders(lib) && IdsReadBack(lib, f) && QuotelessTags(f)
    requires (f.window == "" || f.window in WINDOWS) && forall x :: x in lib.sort(f.levels) ==> x in LEVELS
    ensures AllHarmless(Terms(lib, f), NeedsQuotes(f.text))
  {
    var loose := NeedsQuotes(f.text);
    ListTermsAreHarmless(lib, f, loose);
    SingleTermsAreHarmless(lib, f, loose);
    ScopeTermsAreHarmless(f.scope, loose);
    TextTermIsHarmless(f.text);
  }

  /** A term that starts with no space, and whose prefix the tokeniser passes over. */
  predicate IsNeat(t: Term) {
    Written(t) != "" && !IsSeparator(Written(t)[0]) && IsBland(t.prefix)
  }

  predicate AllNeat(terms: seq<Term>) {
    forall t :: t in terms ==> IsNeat(t)
  }

  lemma EachIsNeat(prefix: string, values: seq<string>)
    requires prefix != "" && !IsSeparator(prefix[0]) && IsBland(prefix)
    ensures AllNeat(Each(prefix, values))
  {
    forall t | t in Each(prefix, values)
      ensures IsNeat(t)
    {
      assert Written(t)[0] == prefix[0];
    }
  }

  lemma FieldIsNeat(present: bool, field: Field, value: string, quoting: bool)
    ensures AllNeat(When(present, FieldTerm(field, value, quoting)))
  {
    FieldNamesAreNames(field);
    FieldNamesAreWords(field);
    assert Written(FieldTerm(field, value, quoting))[0] == FieldName(field)[0];
  }

  lemma SinglesAreNeat(f: Filter)
    ensures AllNeat(SingleTerms(f))
  {
    FieldIsNeat(f.network == Some(true), Is, "network", false);
    FieldIsNeat(f.window != "", Last, f.window, false);
    FieldIsNeat(f.sessionId.Some?, Session, IdText(f.sessionId), false);
    FieldIsNeat(f.requestId.Some?, Request, IdText(f.requestId), false);
    FieldIsNeat(f.fingerprint.Some?, Fingerprint, f.fingerprint.GetOr(""), true);
  }

  lemma ScopeIsNeat(s: Scope)
    ensures AllNeat(ScopeTerms(s))
  {
    FieldIsNeat(s.user != "", User, s.user, true);
    FieldIsNeat(s.device != "", Device, s.device, true);
    FieldIsNeat(s.os != "", Os, s.os, true);
    FieldIsNeat(s.appVersion != "", AppVersion, s.appVersion, true);
    FieldIsNeat(s.sdkVersion != "", SdkVersion, s.sdkVersion, true);
    FieldIsNeat(s.installation != "", Installation, s.installation, true);
  }

  lemma TextIsNeat(text: string)
    ensures AllNeat(TextTerm(text))
  {
    if !NeedsQuotes(text) {
      UnquotedIsPlain(text);
    }
  }

  lemma TermsAreNeat(lib: Library, f: Filter)
    ensures AllNeat(Terms(lib, f))
  {
    EachIsNeat("level:", lib.sort(f.levels));
    EachIsNeat("tag:", lib.sort(f.tags));
    EachIsNeat("-tag:", lib.sort(f.excludeTags));
    SinglesAreNeat(f);
    ScopeIsNeat(f.scope);
    TextIsNeat(f.text);
  }

  /** No query starts with a space. */
  lemma QueryStartsNeatly(lib: Library, f: Filter)
    ensures Query(lib, f) != "" ==> !IsSeparator(Query(lib, f)[0])
  {
    var terms := Terms(lib, f);
    TermsAreNeat(lib, f);
    if terms != [] {
      assert terms[0] in terms;
      assert WriteAll(terms)[0] == Written(terms[0]);
    }
  }

  /** The promise made at `Query`. */
  predicate ReadsBack(lib: Library, f: Filter) {
    ParseSpec(lib, Query(lib, f)) == Ok(Sorted(lib, f))
  }

  lemma ReadBackIsValid(lib: Library, f: Filter)
    requires SortReorders(lib) && ReadsBack(lib, f)
    ensures Valid(f) && forall x :: x in lib.sort(f.levels) ==> x in LEVELS
    ensures forall x :: x in f.tags ==> x in Sorted(lib, f).tags
    ensures forall x :: x in f.excludeTags ==> x in Sorted(lib, f).excludeTags
  {
    ParsedFiltersAreValid(lib, Query(lib, f));
    SortedIsValid(lib, f);
  }

  lemma ReadBackWeighs(k: Class, lib: Library, f: Filter)
    requires SortReorders(lib) && IdsReadBack(lib, f) && ReadsBack(lib, f)
    ensures Count(k, Query(lib, f)) == Weigh(k, Sorted(lib, f)) + Around(k, Terms(lib, f))
  {
    ReadBackIsValid(lib, f);
    QueryWeighs(k, lib, f);
  }

  lemma ReadBackLosesNoOddSpace(lib: Library, f: Filter)
    requires SortReorders(lib) && IdsReadBack(lib, f) && ReadsBack(lib, f)
    ensures Count(OddSpace, Trim(Query(lib, f))) == Count(OddSpace, Query(lib, f))
  {
    ReadBackWeighs(OddSpace, lib, f);
    NoOddSpaceAround(Terms(lib, f));
    QueriesWeigh(OddSpace, lib, Trim(Query(lib, f)));
    TrimCounts(OddSpace, Query(lib, f));
  }

  /** A filter that is read back lost no odd white space to trimming, so the query was
      parsed as it was written. */
  lemma ReadBackAsWritten(lib: Library, f: Filter)
    requires SortReorders(lib) && IdsReadBack(lib, f) && ReadsBack(lib, f)
    ensures ParseFrom(Taker(lib), Query(lib, f), 0, State(EMPTY, [])) == Ok(Sorted(lib, f))
  {
    ReadBackLosesNoOddSpace(lib, f);
    QueryStartsNeatly(lib, f);
    TrimmingMakesNoDifference(lib, Query(lib, f));
  }

  lemma QuotedTagIsABareQuote(prefix: string, tags: seq<string>, x: string)
    requires x in tags && !Quoteless(x)
    ensures exists t :: t in Each(prefix, tags) && HoldsBareQuote(t)
  {
    var i :| 0 <= i < |tags| && tags[i] == x;
    var j :| 0 <= j < |x| && x[j] == '"';
    var t := Each(prefix, tags)[i];
    assert Written(t)[|prefix| + j] == '"';
    assert t in Each(prefix, tags) && HoldsBareQuote(t);
  }

  lemma ReadBackDropsOnlyWhatIsAround(lib: Library, f: Filter)
    requires SortReorders(lib) && IdsReadBack(lib, f) && ReadsBack(lib, f)
    ensures Dropped(Quotes, Bare, Query(lib, f)) <= Around(Quotes, Terms(lib, f))
  {
    ReadBackAsWritten(lib, f);
    QueriesWeigh(Quotes, lib, Query(lib, f));
    ReadBackWeighs(Quotes, lib, f);
  }

  /** A filter that is read back has no quote in its tags: the quotes put around values are
      all dropped, one that stands in a tag drops another, and none is to be lost. */
  lemma ReadBackHasQuotelessTags(lib: Library, f: Filter)
    requires SortReorders(lib) && IdsReadBack(lib, f) && ReadsBack(lib, f)
    ensures QuotelessTags(f)
  {
    ReadBackDropsOnlyWhatIsAround(lib, f);
    TermsAreNeat(lib, f);
    TermsDrop(Bare, Terms(lib, f));
    NoBareQuoteInTags(lib, f);
  }

  lemma NoBareQuoteInTags(lib: Library, f: Filter)
    requires SortReorders(lib) && forall t :: t in Terms(lib, f) ==> !HoldsBareQuote(t)
    ensures QuotelessTags(f)
  {
    var tags, excludes := lib.sort(f.tags), lib.sort(f.excludeTags);
    SortedKeeps(f.tags, tags);
    SortedKeeps(f.excludeTags, excludes);
    forall x | x in f.tags
      ensures Quoteless(x)
    {
      if !Quoteless(x) {
        QuotedTagIsABareQuote("tag:", tags, x);
      }
    }
    forall x | x in f.excludeTags
      ensures Quoteless(x)
    {
      if !Quoteless(x) {
        QuotedTagIsABareQuote("-tag:", excludes, x);
      }
    }
  }

  /** With no quote in its tags, it was read from plain tokens and values of other fields. */
  lemma ReadBackIsTidy(lib: Library, f: Filter) returns (end: State)
    requires SortReorders(lib) && IdsReadBack(lib, f) && ReadsBack(lib, f)
    ensures Tidy(end, NeedsQuotes(f.text)) && Finish(end) == Sorted(lib, f)
  {
    var q, terms := Query(lib, f), Terms(lib, f);
    ReadBackAsWritten(lib, f);
    ReadBackIsValid(lib, f);
    ReadBackHasQuotelessTags(lib, f);
    TermsAreHarmless(lib, f);
    TailStands(q, 0);
    assert q[0..] == q;
    end := HarmlessTerms(lib, q, 0, State(EMPTY, []), terms, NeedsQuotes(f.text));
  }

  lemma FinishedTextIsNotNegated(s: State)
    requires Tidy(s, false) && !NeedsQuotes(Finish(s).text)
    ensures !Negated(Finish(s).text)
  {
    if |s.texts| == 1 {
      assert s.texts[0] in s.texts;
    } else if |s.texts| > 1 {
      assert IsSpecial(Finish(s).text[|s.texts[0]|]);
    }
  }

  lemma PlainTagsAreWritable(lib: Library, f: Filter, end: State)
    requires SortReorders(lib) && Valid(f) && IdsReadBack(lib, f) && (Negated(f.text) ==> NeedsQuotes(f.text))
    requires AllPlain(end.filter.tags) && AllPlain(end.filter.excludeTags) && Finish(end) == Sorted(lib, f)
    ensures Writable(lib, f)
  {
    SortedKeeps(f.tags, lib.sort(f.tags));
    SortedKeeps(f.excludeTags, lib.sort(f.excludeTags));
    if f.sessionId.Some? {
      IdTextIsPlain(IdText(f.sessionId));
    }
    if f.requestId.Some? {
      IdTextIsPlain(IdText(f.requestId));
    }
  }

  lemma ReadBackIsWritable(lib: Library, f: Filter)
    requires SortReorders(lib) && IdsReadBack(lib, f) && ReadsBack(lib, f)
    ensures Writable(lib, f)
  {
    ReadBackIsValid(lib, f);
    var end := ReadBackIsTidy(lib, f);
    if !NeedsQuotes(f.text) {
      FinishedTextIsNotNegated(end);
    }
    PlainTagsAreWritable(lib, f, end);
  }

  lemma WritableIsTrimmed(lib: Library, f: Filter)
    requires SortReorders(lib) && Writable(lib, f)
    requires Count(OddSpace, Trim(Query(lib, f))) == Count(OddSpace, Query(lib, f))
    ensures Trim(Query(lib, f)) == Query(lib, f)
  {
    var q := Query(lib, f);
    AllTermsAreReadable(lib, f);
    if Terms(lib, f) != [] {
      NoSeparatorAtTheEnds(Terms(lib, f));
      LosslessTrim(q);
      assert |Trim(q)| == |q|;
    }
  }

  /** The promise made at `Query`, for every filter: it is kept exactly of the writable
      filters whose query has no white space at its ends. Writable is: no empty or repeated
      entries, tags without spaces, tabs and quotes, known levels and windows, no text that
      starts with a minus unless quoted. */
  lemma FiltersReadBackExactly(lib: Library, f: Filter)
    requires SortReorders(lib) && IdsReadBack(lib, f)
    ensures ParseSpec(lib, Query(lib, f)) == Ok(Sorted(lib, f)) <==>
            Writable(lib, f) && Trim(Query(lib, f)) == Query(lib, f)
  {
    if ReadsBack(lib, f) {
      ReadBackLosesNoOddSpace(lib, f);
      ReadBackIsWritable(lib, f);
      WritableIsTrimmed(lib, f);
    }
    if Writable(lib, f) && Trim(Query(lib, f)) == Query(lib, f) {
      WrittenFiltersReadBack(lib, f);
    }
  }

  lemma SortedOne(lib: Library, x: string)
    requires SortReorders(lib)
    ensures lib.sort([x]) == [x]
  {
    var sorted := lib.sort([x]);
    assert |multiset(sorted)| == |multiset([x])|;
    assert sorted[0] in multiset([x]);
  }

  lemma SortedNone(lib: Library)
    requires SortReorders(lib)
    ensures lib.sort([]) == []
  {
    var none: seq<string> := [];
    assert |multiset(lib.sort(none))| == |multiset(none)|;
  }

  /** A tag as it is typed when it needs quotes: tag:"…". */
  function Typed(tag: string): string {
    Written(FieldTerm(Tag, tag, true))
  }

  lemma TypedTagIsRead(lib: Library, tag: string)
    requires NeedsQuotes(tag)
    ensures ParseSpec(lib, Typed(tag)) == Ok(EMPTY.(tags := [tag]))
  {
    var t, f := FieldTerm(Tag, tag, true), EMPTY.(tags := [tag]);
    assert AddNew([], tag) == [tag];
    OneField(lib, EMPTY, true, Tag, tag, true, f);
    FieldTermIsReadable(Tag, tag, true);
    assert WriteAll([t]) == [Written(t)];
    ParsesWrittenTerms(lib, Written(t), [t], State(f, []));
  }

  /** The promise fails of filters that people can type: a tag with a space or a quote,
      given in quotes, is taken in whole, and the filter it makes is not read back. */
  lemma TypedTagIsLost(lib: Library, tag: string)
    requires SortReorders(lib) && !IsPlain(tag)
    ensures var f := EMPTY.(tags := [tag]);
            ParseSpec(lib, Typed(tag)) == Ok(f) && ParseSpec(lib, Query(lib, f)) != Ok(f)
  {
    var f := EMPTY.(tags := [tag]);
    var i :| 0 <= i < |tag| && (IsSeparator(tag[i]) || tag[i] == '"');
    assert IsSpecial(tag[i]);
    TypedTagIsRead(lib, tag);
    SortedOne(lib, tag);
    SortedNone(lib);
    assert Sorted(lib, f) == f;
    assert tag in f.tags;
    FiltersReadBackExactly(lib, f);
  }
}
