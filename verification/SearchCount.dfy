/** What a query and the filter read from it hold of one class of characters: reading can
    only lose them. */
module SearchCount {
  import opened Prelude
  import opened SearchQuery

  // ----- what reading loses -----------------------------------------------------

  /** Quotes, or the white space that does not end a token. */
  datatype Class = Quotes | OddSpace

  predicate Counted(k: Class, c: char) {
    match k
    case Quotes => c == '"'
    case OddSpace => IsSpace(c) && !IsSeparator(c)
  }

  function Bit(k: Class, c: char): nat {
    if Counted(k, c) then 1 else 0
  }

  function Count(k: Class, s: string): nat {
    if s == "" then 0 else Bit(k, s[0]) + Count(k, s[1..])
  }

  /** Where the tokeniser is: outside quotes, inside, or behind a backslash inside. */
  datatype Mode = Bare | Quoted | Escaped

  function Goes(m: Mode, c: char): Mode {
    match m
    case Bare => if c == '"' then Quoted else Bare
    case Quoted => if c == '\\' then Escaped else if c == '"' then Bare else Quoted
    case Escaped => Quoted
  }

  function Ends(m: Mode, s: string): Mode
    decreases |s|
  {
    if s == "" then m else Ends(Goes(m, s[0]), s[1..])
  }

  /** The quotes that open or close a run when s is read from this mode on, as far as they
      are counted: the tokeniser keeps none of them. */
  function Dropped(k: Class, m: Mode, s: string): nat
    decreases |s|
  {
    if s == "" then 0
    else (if s[0] == '"' && m != Escaped then Bit(k, s[0]) else 0) + Dropped(k, Goes(m, s[0]), s[1..])
  }

  function CountAll(k: Class, parts: seq<string>): nat {
    if parts == [] then 0 else Count(k, parts[0]) + CountAll(k, parts[1..])
  }

  function WeighScope(k: Class, s: Scope): nat {
    Count(k, s.user) + Count(k, s.device) + Count(k, s.os) + Count(k, s.appVersion) + Count(k, s.sdkVersion)
    + Count(k, s.installation)
  }

  /** The counted characters a filter holds where a query may put any. */
  function Weigh(k: Class, f: Filter): nat {
    CountAll(k, f.tags) + CountAll(k, f.excludeTags) + Count(k, f.fingerprint.GetOr("")) + WeighScope(k, f.scope)
    + Count(k, f.text)
  }

  function WeighState(k: Class, s: State): nat {
    Weigh(k, s.filter) + CountAll(k, s.texts)
  }

  lemma {:induction false} CountAppend(k: Class, a: string, b: string)
    ensures Count(k, a + b) == Count(k, a) + Count(k, b)
  {
    if a == "" {
      assert a + b == b;
    } else {
      assert (a + b)[1..] == a[1..] + b;
      CountAppend(k, a[1..], b);
    }
  }

  lemma {:induction false} CountAllAppend(k: Class, a: seq<string>, b: seq<string>)
    ensures CountAll(k, a + b) == CountAll(k, a) + CountAll(k, b)
  {
    if a == [] {
      assert a + b == b;
    } else {
      assert (a + b)[1..] == a[1..] + b;
      CountAllAppend(k, a[1..], b);
    }
  }

  lemma CountDrop(k: Class, s: string, n: nat)
    requires n <= |s|
    ensures Count(k, s[n..]) <= Count(k, s)
  {
    assert s == s[..n] + s[n..];
    CountAppend(k, s[..n], s[n..]);
  }

  /** A token carries exactly what its text does, but for the quotes around its runs. */
  lemma {:induction false} OutsideCounts(k: Class, q: string, i: nat)
    requires i <= |q| && Outside(q, i).Token?
    ensures var r := Outside(q, i);
            Count(k, r.text) + Count(k, q[r.next..]) + Dropped(k, Bare, q[i..])
            == Count(k, q[i..]) + Dropped(k, Bare, q[r.next..])
    decreases |q| - i
  {
    if i < |q| && !IsSeparator(q[i]) {
      CountStep(k, q, i);
      DroppedStep(k, Bare, q, i);
      if q[i] == '"' {
        InsideCounts(k, q, i + 1);
      } else {
        OutsideCounts(k, q, i + 1);
        CountPrepend(k, q[i], Outside(q, i + 1).text);
      }
    }
  }

  lemma {:induction false} InsideCounts(k: Class, q: string, i: nat)
    requires i <= |q| && Inside(q, i).Token?
    ensures var r := Inside(q, i);
            Count(k, r.text) + Count(k, q[r.next..]) + Dropped(k, Quoted, q[i..])
            == Count(k, q[i..]) + Dropped(k, Bare, q[r.next..])
    decreases |q| - i
  {
    CountStep(k, q, i);
    DroppedStep(k, Quoted, q, i);
    if q[i] == '\\' && i + 1 < |q| {
      CountStep(k, q, i + 1);
      DroppedStep(k, Escaped, q, i + 1);
      InsideCounts(k, q, i + 2);
      CountPrepend(k, q[i + 1], Inside(q, i + 2).text);
    } else if q[i] == '"' {
      OutsideCounts(k, q, i + 1);
    } else {
      InsideCounts(k, q, i + 1);
      CountPrepend(k, q[i], Inside(q, i + 1).text);
    }
  }

  lemma DroppedStep(k: Class, m: Mode, q: string, i: nat)
    requires i < |q|
    ensures Dropped(k, m, q[i..]) ==
            (if q[i] == '"' && m != Escaped then Bit(k, q[i]) else 0) + Dropped(k, Goes(m, q[i]), q[i + 1..])
  {
    assert q[i..][1..] == q[i + 1..];
  }

  lemma CountStep(k: Class, q: string, i: nat)
    requires i < |q|
    ensures Count(k, q[i..]) == Bit(k, q[i]) + Count(k, q[i + 1..])
  {
    assert q[i..][1..] == q[i + 1..];
  }

  lemma CountPrepend(k: Class, c: char, s: string)
    ensures Count(k, [c] + s) == Bit(k, c) + Count(k, s)
  {
    assert ([c] + s)[1..] == s;
  }

  lemma AddNewCounts(k: Class, s: seq<string>, x: string)
    ensures CountAll(k, AddNew(s, x)) <= CountAll(k, s) + Count(k, x)
  {
    CountAllAppend(k, s, [x]);
  }

  lemma SetFieldWeighs(k: Class, lib: Library, f: Filter, field: Field, value: string, negated: bool, at: nat)
    requires SetField(lib, f, field, value, negated, at).Ok?
    ensures Weigh(k, SetField(lib, f, field, value, negated, at).value) <= Weigh(k, f) + Count(k, value)
  {
    AddNewCounts(k, f.tags, value);
    AddNewCounts(k, f.excludeTags, value);
  }

  lemma FieldTokenWeighs(k: Class, lib: Library, f: Filter, body: string, negated: bool, at: nat)
    requires ColonAt(body, 0) > 0 && FieldNamed(body[..ColonAt(body, 0)]).Some?
    requires var colon := ColonAt(body, 0);
             SetField(lib, f, FieldNamed(body[..colon]).value, body[colon + 1..], negated, at).Ok?
    ensures var colon := ColonAt(body, 0);
            Weigh(k, SetField(lib, f, FieldNamed(body[..colon]).value, body[colon + 1..], negated, at).value)
            <= Weigh(k, f) + Count(k, body)
  {
    var colon := ColonAt(body, 0);
    CountDrop(k, body, colon + 1);
    SetFieldWeighs(k, lib, f, FieldNamed(body[..colon]).value, body[colon + 1..], negated, at);
  }

  lemma TextWeighs(k: Class, s: State, text: string)
    ensures WeighState(k, s.(texts := s.texts + [text])) == WeighState(k, s) + Count(k, text)
  {
    CountAllAppend(k, s.texts, [text]);
  }

  lemma TakeWeighs(k: Class, lib: Library, s: State, token: string, leadingQuote: bool, at: nat)
    requires Take(lib, s, token, leadingQuote, at).Ok?
    ensures WeighState(k, Take(lib, s, token, leadingQuote, at).value) <= WeighState(k, s) + Count(k, token)
  {
    var body := if Negated(token) then token[1..] else token;
    if leadingQuote || ColonAt(body, 0) <= 0 {
      TextWeighs(k, s, token);
    } else {
      CountDrop(k, token, |token| - |body|);
      FieldTokenWeighs(k, lib, s.filter, body, Negated(token), at);
    }
  }

  lemma {:induction false} JoinCounts(k: Class, parts: seq<string>)
    ensures Count(k, JoinWithSpaces(parts)) == CountAll(k, parts)
  {
    if |parts| == 1 {
      assert parts == [parts[0]];
    } else if parts != [] {
      JoinCounts(k, parts[1..]);
      CountAppend(k, parts[0], " " + JoinWithSpaces(parts[1..]));
      Regroup(parts[0], " ", JoinWithSpaces(parts[1..]));
    }
  }

  lemma FinishWeighs(k: Class, s: State)
    ensures Weigh(k, Finish(s)) <= WeighState(k, s)
  {
    JoinCounts(k, s.texts);
  }

  // ----- what is written ----------------------------------------------------------

  predicate IsQuoted(t: Term) {
    t.quoting && NeedsQuotes(t.value)
  }

  /** What the prefixes and values of these terms hold. */
  function Sum(k: Class, terms: seq<Term>): nat {
    if terms == [] then 0 else Count(k, terms[0].prefix) + Count(k, terms[0].value) + Sum(k, terms[1..])
  }

  /** The quotes put around values. */
  function Around(k: Class, terms: seq<Term>): nat {
    if terms == [] then 0 else (if IsQuoted(terms[0]) then 2 * Bit(k, '"') else 0) + Around(k, terms[1..])
  }

  lemma {:induction false} SumAppend(k: Class, a: seq<Term>, b: seq<Term>)
    ensures Sum(k, a + b) == Sum(k, a) + Sum(k, b)
  {
    if a == [] {
      assert a + b == b;
    } else {
      assert (a + b)[1..] == a[1..] + b;
      SumAppend(k, a[1..], b);
    }
  }

  lemma {:induction false} EscapeCounts(k: Class, s: string)
    ensures Count(k, Escape(s)) == Count(k, s)
  {
    if s != "" {
      EscapeCounts(k, s[1..]);
      CountAppend(k, EscapeOne(s[0]), Escape(s[1..]));
      CountPrepend(k, '\\', [s[0]]);
      CountPrepend(k, s[0], "");
    }
  }

  lemma QuotingCounts(k: Class, s: string)
    ensures Count(k, QuoteValue(s)) == Count(k, s) + if NeedsQuotes(s) then 2 * Bit(k, '"') else 0
  {
    if NeedsQuotes(s) {
      EscapeCounts(k, s);
      CountPrepend(k, '"', "");
      CountAppend(k, ['"'], Escape(s));
      CountAppend(k, ['"'] + Escape(s), ['"']);
    }
  }

  lemma TermCounts(k: Class, t: Term)
    ensures Count(k, Written(t)) ==
            Count(k, t.prefix) + Count(k, t.value) + if IsQuoted(t) then 2 * Bit(k, '"') else 0
  {
    QuotingCounts(k, t.value);
    CountAppend(k, t.prefix, Shown(t));
  }

  lemma {:induction false} WrittenCounts(k: Class, terms: seq<Term>)
    ensures CountAll(k, WriteAll(terms)) == Sum(k, terms) + Around(k, terms)
  {
    if terms != [] {
      assert WriteAll(terms)[1..] == WriteAll(terms[1..]);
      WrittenCounts(k, terms[1..]);
      TermCounts(k, terms[0]);
    }
  }

  lemma {:induction false} EachCounts(k: Class, prefix: string, values: seq<string>)
    requires Count(k, prefix) == 0
    ensures Sum(k, Each(prefix, values)) == CountAll(k, values)
  {
    if values != [] {
      assert Each(prefix, values)[1..] == Each(prefix, values[1..]);
      EachCounts(k, prefix, values[1..]);
    }
  }

  lemma {:induction false} WordsCountNothing(k: Class, s: string)
    requires IsWord(s)
    ensures Count(k, s) == 0
  {
    if s != "" {
      WordsCountNothing(k, s[1..]);
    }
  }

  lemma FieldCounts(k: Class, present: bool, field: Field, value: string, quoting: bool)
    ensures Sum(k, When(present, FieldTerm(field, value, quoting))) == if present then Count(k, value) else 0
  {
    FieldNamesAreWords(field);
    PrefixCountsNothing(k, FieldName(field));
    SumOfOne(k, present, FieldTerm(field, value, quoting));
  }

  lemma SumOfOne(k: Class, present: bool, t: Term)
    ensures Sum(k, When(present, t)) == if present then Count(k, t.prefix) + Count(k, t.value) else 0
  {
    assert Sum(k, []) == 0;
  }

  /** The canonical text of a UUID: hexadecimal digits and dashes. */
  predicate IsIdText(s: string) {
    s != "" && forall i :: 0 <= i < |s| ==> '0' <= s[i] <= '9' || 'a' <= s[i] <= 'f' || s[i] == '-'
  }

  /** The library prints the filter's ids canonically and reads them back. */
  ghost predicate IdsReadBack(lib: Library, f: Filter) {
    && (f.sessionId.Some? ==> IsIdText(IdText(f.sessionId)) && lib.parseUuid(IdText(f.sessionId)) == f.sessionId)
    && (f.requestId.Some? ==> IsIdText(IdText(f.requestId)) && lib.parseUuid(IdText(f.requestId)) == f.requestId)
  }

  lemma {:induction false} IdTextCountsNothing(k: Class, s: string)
    requires s == "" || IsIdText(s)
    ensures Count(k, s) == 0
  {
    if |s| == 1 {
      assert Count(k, s[1..]) == 0;
    } else if s != "" {
      IdTextCountsNothing(k, s[1..]);
    }
  }

  lemma {:induction false} LevelsCountNothing(k: Class, levels: seq<string>)
    requires forall x :: x in levels ==> x in LEVELS
    ensures CountAll(k, levels) == 0
  {
    if levels != [] {
      LevelsAreWords(levels[0]);
      WordsCountNothing(k, levels[0]);
      LevelsCountNothing(k, levels[1..]);
    }
  }

  lemma PrefixCountsNothing(k: Class, word: string)
    requires IsWord(word)
    ensures Count(k, word + ":") == 0
  {
    WordsCountNothing(k, word);
    CountAppend(k, word, ":");
    CountPrepend(k, ':', "");
    assert [':'] + "" == ":";
  }

  lemma LevelPrefixCountsNothing(k: Class)
    ensures Count(k, "level:") == 0
  {
    PrefixCountsNothing(k, "level");
    assert "level" + ":" == "level:";
  }

  lemma TagPrefixCountsNothing(k: Class)
    ensures Count(k, "tag:") == 0
  {
    PrefixCountsNothing(k, "tag");
    assert "tag" + ":" == "tag:";
  }

  lemma MinusTagPrefixCountsNothing(k: Class)
    ensures Count(k, "-tag:") == 0
  {
    TagPrefixCountsNothing(k);
    CountPrepend(k, '-', "tag:");
    assert ['-'] + "tag:" == "-tag:";
  }

  lemma ListTermsCount(k: Class, lib: Library, f: Filter)
    requires forall x :: x in lib.sort(f.levels) ==> x in LEVELS
    ensures Sum(k, ListTerms(lib, f)) == CountAll(k, lib.sort(f.tags)) + CountAll(k, lib.sort(f.excludeTags))
  {
    LevelPrefixCountsNothing(k);
    TagPrefixCountsNothing(k);
    MinusTagPrefixCountsNothing(k);
    EachCounts(k, "level:", lib.sort(f.levels));
    EachCounts(k, "tag:", lib.sort(f.tags));
    EachCounts(k, "-tag:", lib.sort(f.excludeTags));
    LevelsCountNothing(k, lib.sort(f.levels));
    SumOfThree(k, Each("level:", lib.sort(f.levels)), Each("tag:", lib.sort(f.tags)),
               Each("-tag:", lib.sort(f.excludeTags)));
  }

  lemma SumOfThree(k: Class, a: seq<Term>, b: seq<Term>, c: seq<Term>)
    ensures Sum(k, a + b + c) == Sum(k, a) + Sum(k, b) + Sum(k, c)
  {
    SumAppend(k, a, b);
    SumAppend(k, a + b, c);
  }

  lemma WordFieldCounts(k: Class, present: bool, field: Field, word: string)
    requires IsWord(word)
    ensures Sum(k, When(present, FieldTerm(field, word, false))) == 0
  {
    WordsCountNothing(k, word);
    FieldCounts(k, present, field, word, false);
  }

  lemma FlagTermsCount(k: Class, f: Filter)
    requires f.window == "" || f.window in WINDOWS
    ensures Sum(k, FlagTerms(f)) == 0
  {
    if f.window != "" {
      LevelsAreWords(f.window);
    }
    WordFieldCounts(k, f.network == Some(true), Is, "network");
    WordFieldCounts(k, f.window != "", Last, f.window);
    SumAppend(k, When(f.network == Some(true), FieldTerm(Is, "network", false)),
              When(f.window != "", FieldTerm(Last, f.window, false)));
  }

  lemma LinkTermsCount(k: Class, lib: Library, f: Filter)
    requires IdsReadBack(lib, f)
    ensures Sum(k, LinkTerms(f)) == Count(k, f.fingerprint.GetOr(""))
  {
    IdTextCountsNothing(k, IdText(f.sessionId));
    IdTextCountsNothing(k, IdText(f.requestId));
    FieldCounts(k, f.sessionId.Some?, Session, IdText(f.sessionId), false);
    FieldCounts(k, f.requestId.Some?, Request, IdText(f.requestId), false);
    FieldCounts(k, f.fingerprint.Some?, Fingerprint, f.fingerprint.GetOr(""), true);
    SumOfThree(k, When(f.sessionId.Some?, FieldTerm(Session, IdText(f.sessionId), false)),
               When(f.requestId.Some?, FieldTerm(Request, IdText(f.requestId), false)),
               When(f.fingerprint.Some?, FieldTerm(Fingerprint, f.fingerprint.GetOr(""), true)));
  }

  lemma SingleTermsCount(k: Class, lib: Library, f: Filter)
    requires IdsReadBack(lib, f) && (f.window == "" || f.window in WINDOWS)
    ensures Sum(k, SingleTerms(f)) == Count(k, f.fingerprint.GetOr(""))
  {
    FlagTermsCount(k, f);
    LinkTermsCount(k, lib, f);
    SumAppend(k, FlagTerms(f), LinkTerms(f));
  }

  lemma ClientTermsCount(k: Class, s: Scope)
    ensures Sum(k, ClientTerms(s)) == Count(k, s.user) + Count(k, s.device) + Count(k, s.os)
  {
    FieldCounts(k, s.user != "", User, s.user, true);
    FieldCounts(k, s.device != "", Device, s.device, true);
    FieldCounts(k, s.os != "", Os, s.os, true);
    SumOfThree(k, When(s.user != "", FieldTerm(User, s.user, true)),
               When(s.device != "", FieldTerm(Device, s.device, true)),
               When(s.os != "", FieldTerm(Os, s.os, true)));
  }

  lemma BuildTermsCount(k: Class, s: Scope)
    ensures Sum(k, BuildTerms(s)) == Count(k, s.appVersion) + Count(k, s.sdkVersion) + Count(k, s.installation)
  {
    FieldCounts(k, s.appVersion != "", AppVersion, s.appVersion, true);
    FieldCounts(k, s.sdkVersion != "", SdkVersion, s.sdkVersion, true);
    FieldCounts(k, s.installation != "", Installation, s.installation, true);
    SumOfThree(k, When(s.appVersion != "", FieldTerm(AppVersion, s.appVersion, true)),
               When(s.sdkVersion != "", FieldTerm(SdkVersion, s.sdkVersion, true)),
               When(s.installation != "", FieldTerm(Installation, s.installation, true)));
  }

  lemma ScopeTermsCount(k: Class, f: Filter)
    ensures Sum(k, ScopeTerms(f.scope)) == WeighScope(k, f.scope)
  {
    ClientTermsCount(k, f.scope);
    BuildTermsCount(k, f.scope);
    SumAppend(k, ClientTerms(f.scope), BuildTerms(f.scope));
  }

  lemma TextTermCounts(k: Class, text: string)
    ensures Sum(k, TextTerm(text)) == Count(k, text)
  {
    SumOfOne(k, text != "", Term("", text, true));
  }

  lemma QueryCounts(k: Class, lib: Library, f: Filter)
    ensures Count(k, Query(lib, f)) ==
            Sum(k, ListTerms(lib, f)) + Sum(k, SingleTerms(f)) + Sum(k, ScopeTerms(f.scope)) + Sum(k, TextTerm(f.text))
            + Around(k, Terms(lib, f))
  {
    SumOfThree(k, ListTerms(lib, f), SingleTerms(f), ScopeTerms(f.scope));
    SumAppend(k, ListTerms(lib, f) + SingleTerms(f) + ScopeTerms(f.scope), TextTerm(f.text));
    WrittenCounts(k, Terms(lib, f));
    JoinCounts(k, WriteAll(Terms(lib, f)));
  }

  /** A filter puts each of its counted characters into the query once, and two quotes
      around each value that is quoted. */
  lemma QueryWeighs(k: Class, lib: Library, f: Filter)
    requires IdsReadBack(lib, f) && (f.window == "" || f.window in WINDOWS)
    requires forall x :: x in lib.sort(f.levels) ==> x in LEVELS
    ensures Count(k, Query(lib, f)) == Weigh(k, Sorted(lib, f)) + Around(k, Terms(lib, f))
  {
    QueryCounts(k, lib, f);
    ListTermsCount(k, lib, f);
    SingleTermsCount(k, lib, f);
    ScopeTermsCount(k, f);
    TextTermCounts(k, f.text);
  }

  lemma {:induction false} NoOddSpaceAround(terms: seq<Term>)
    ensures Around(OddSpace, terms) == 0
  {
    if terms != [] {
      NoOddSpaceAround(terms[1..]);
    }
  }

  lemma {:induction false} TrimCounts(k: Class, s: string)
    ensures Count(k, Trim(s)) <= Count(k, s)
    decreases |s|
  {
    if s != "" {
      var n := |s| - 1;
      if IsSpace(s[0]) {
        TrimCounts(k, s[1..]);
      } else if IsSpace(s[n]) {
        TrimCounts(k, s[..n]);
        assert s == s[..n] + [s[n]];
        CountAppend(k, s[..n], [s[n]]);
      }
    }
  }

  /** Trimming that loses no odd white space takes only separators, and those at the end. */
  lemma {:induction false} LosslessTrim(s: string)
    requires s != "" ==> !IsSeparator(s[0])
    requires Count(OddSpace, Trim(s)) == Count(OddSpace, s)
    ensures Trim(s) <= s && forall i :: |Trim(s)| <= i < |s| ==> IsSeparator(s[i])
    decreases |s|
  {
    if s != "" {
      var n := |s| - 1;
      if IsSpace(s[0]) {
        TrimCounts(OddSpace, s[1..]);
      } else if IsSpace(s[n]) {
        assert s == s[..n] + [s[n]];
        CountAppend(OddSpace, s[..n], [s[n]]);
        CountPrepend(OddSpace, s[n], "");
        assert [s[n]] + "" == [s[n]];
        TrimCounts(OddSpace, s[..n]);
        LosslessTrim(s[..n]);
      }
    }
  }

  // ----- quotes that are dropped from what is written -----------------------------------

  predicate Quoteless(s: string) {
    forall i :: 0 <= i < |s| ==> s[i] != '"'
  }

  predicate IsBland(s: string) {
    forall i :: 0 <= i < |s| ==> s[i] != '"' && s[i] != '\\'
  }

  lemma {:induction false} DroppedAppend(k: Class, m: Mode, a: string, b: string)
    ensures Dropped(k, m, a + b) == Dropped(k, m, a) + Dropped(k, Ends(m, a), b)
    ensures Ends(m, a + b) == Ends(Ends(m, a), b)
    decreases |a|
  {
    if a == "" {
      assert a + b == b;
    } else {
      assert (a + b)[1..] == a[1..] + b;
      DroppedAppend(k, Goes(m, a[0]), a[1..], b);
    }
  }

  lemma DroppedOne(k: Class, m: Mode, c: char)
    ensures Dropped(k, m, [c]) == if c == '"' && m != Escaped then Bit(k, c) else 0
    ensures Ends(m, [c]) == Goes(m, c)
  {
    assert [c][1..] == "";
  }

  lemma {:induction false} BlandIsPassed(m: Mode, s: string)
    requires IsBland(s) && m != Escaped
    ensures Dropped(Quotes, m, s) == 0 && Ends(m, s) == m
    decreases |s|
  {
    if s != "" {
      BlandIsPassed(m, s[1..]);
    }
  }

  lemma {:induction false} QuotelessIsPassed(s: string)
    requires Quoteless(s)
    ensures Dropped(Quotes, Bare, s) == 0 && Ends(Bare, s) == Bare
    decreases |s|
  {
    if s != "" {
      QuotelessIsPassed(s[1..]);
    }
  }

  /** Outside quotes nothing hides a quote. */
  lemma {:induction false} FirstQuoteIsDropped(s: string)
    requires !Quoteless(s)
    ensures Dropped(Quotes, Bare, s) >= 1
    decreases |s|
  {
    if s[0] != '"' {
      var i :| 0 <= i < |s| && s[i] == '"';
      assert s[1..][i - 1] == '"';
      FirstQuoteIsDropped(s[1..]);
    }
  }

  /** What was escaped is read inside quotes without leaving them. */
  lemma {:induction false} EscapedIsPassed(s: string)
    ensures Dropped(Quotes, Quoted, Escape(s)) == 0 && Ends(Quoted, Escape(s)) == Quoted
    decreases |s|
  {
    if s != "" {
      EscapedIsPassed(s[1..]);
      EscapedOneIsPassed(s[0]);
      DroppedAppend(Quotes, Quoted, EscapeOne(s[0]), Escape(s[1..]));
    }
  }

  lemma EscapedOneIsPassed(c: char)
    ensures Dropped(Quotes, Quoted, EscapeOne(c)) == 0 && Ends(Quoted, EscapeOne(c)) == Quoted
  {
    if c == '\\' || c == '"' {
      assert EscapeOne(c)[1..] == [c];
      DroppedOne(Quotes, Escaped, c);
    } else {
      DroppedOne(Quotes, Quoted, c);
    }
  }

  /** The quotes around a value are both dropped where they are read as such; where the
      first one closes a run instead, some quote behind it opens another. */
  lemma QuotedValueDrops(m: Mode, s: string)
    requires m != Escaped
    ensures Dropped(Quotes, m, ['"'] + Escape(s) + ['"']) >= 2
    ensures m == Bare ==> Ends(m, ['"'] + Escape(s) + ['"']) == Bare
  {
    var behind := Escape(s) + ['"'];
    Regroup(['"'], Escape(s), ['"']);
    DroppedOne(Quotes, m, '"');
    DroppedAppend(Quotes, m, ['"'], behind);
    if m == Bare {
      EscapedIsPassed(s);
      DroppedOne(Quotes, Quoted, '"');
      DroppedAppend(Quotes, Quoted, Escape(s), ['"']);
    } else {
      assert behind[|Escape(s)|] == '"';
      FirstQuoteIsDropped(behind);
    }
  }

  lemma QuotedTermDrops(m: Mode, t: Term)
    requires m != Escaped && IsQuoted(t) && IsBland(t.prefix)
    ensures Dropped(Quotes, m, Written(t)) >= 2 && (m == Bare ==> Ends(m, Written(t)) == Bare)
  {
    BlandIsPassed(m, t.prefix);
    DroppedAppend(Quotes, m, t.prefix, Shown(t));
    QuotedValueDrops(m, t.value);
  }

  /** A quote that nothing was put around. */
  predicate HoldsBareQuote(t: Term) {
    !IsQuoted(t) && !Quoteless(Written(t))
  }

  predicate AllBland(terms: seq<Term>) {
    forall t :: t in terms ==> IsBland(t.prefix)
  }

  function Extra(bare: bool): nat {
    if bare then 1 else 0
  }

  /** One term: both quotes around its value go, or the first one it holds itself. */
  lemma TermDrops(m: Mode, t: Term)
    requires m != Escaped && IsBland(t.prefix)
    ensures Dropped(Quotes, m, Written(t)) >=
            (if IsQuoted(t) then 2 else 0) + Extra(m == Bare && HoldsBareQuote(t))
    ensures m == Bare && !HoldsBareQuote(t) ==> Ends(m, Written(t)) == Bare
  {
    if IsQuoted(t) {
      QuotedTermDrops(m, t);
    } else if m == Bare {
      if Quoteless(Written(t)) {
        QuotelessIsPassed(Written(t));
      } else {
        FirstQuoteIsDropped(Written(t));
      }
    }
  }

  function Rest(terms: seq<Term>): string
    requires terms != []
  {
    if |terms| == 1 then "" else " " + JoinWithSpaces(WriteAll(terms[1..]))
  }

  lemma FirstThenRest(terms: seq<Term>)
    requires terms != []
    ensures JoinWithSpaces(WriteAll(terms)) == Written(terms[0]) + Rest(terms)
  {
    assert WriteAll(terms)[1..] == WriteAll(terms[1..]);
    if |terms| > 1 {
      Regroup(Written(terms[0]), " ", JoinWithSpaces(WriteAll(terms[1..])));
    }
  }

  lemma RestDrops(m: Mode, terms: seq<Term>)
    requires terms != []
    ensures Goes(m, ' ') != Escaped && (m == Bare ==> Goes(m, ' ') == Bare)
    ensures Dropped(Quotes, m, Rest(terms)) == Dropped(Quotes, Goes(m, ' '), JoinWithSpaces(WriteAll(terms[1..])))
  {
    if |terms| > 1 {
      DroppedOne(Quotes, m, ' ');
      DroppedAppend(Quotes, m, " ", JoinWithSpaces(WriteAll(terms[1..])));
    } else {
      assert WriteAll(terms[1..]) == [];
    }
  }

  /** Whatever the tokeniser makes of a query, it drops as many quotes as were put around
      values, and one more when a term holds a quote of its own. */
  lemma {:induction false} TermsDrop(m: Mode, terms: seq<Term>)
    requires m != Escaped && AllBland(terms)
    ensures Dropped(Quotes, m, JoinWithSpaces(WriteAll(terms))) >=
            Around(Quotes, terms) + Extra(m == Bare && exists t :: t in terms && HoldsBareQuote(t))
    decreases |terms|
  {
    if terms != [] {
      var t, rest := terms[0], terms[1..];
      var ends := Ends(m, Written(t));
      assert t in terms && terms == [t] + rest;
      FirstThenRest(terms);
      DroppedAppend(Quotes, m, Written(t), Rest(terms));
      TermDrops(m, t);
      RestDrops(ends, terms);
      TermsDrop(Goes(ends, ' '), rest);
    }
  }
}
