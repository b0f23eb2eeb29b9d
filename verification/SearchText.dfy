/** The free text of a query: which words of it become the text of the filter, and in which
    order, whatever fields stand between them. */
module SearchText {
  import opened Prelude
  import opened SearchExact
  import opened SearchQuery

  /** A word that is no field and no negation. */
  predicate IsFreeWord(w: string) {
    w != "" && IsPlain(w) && (forall i :: 0 <= i < |w| ==> w[i] != ':') && !(|w| > 1 && w[0] == '-')
  }

  /** A free word, or any text in quotes that needs them. */
  predicate IsText(t: Term) {
    t.prefix == "" && if t.quoting && NeedsQuotes(t.value) then true else IsFreeWord(t.value)
  }

  /** A field with a value, or a tag to leave out. */
  predicate IsField(t: Term) {
    && t.value != "" && (t.quoting || IsPlain(t.value))
    && (t.prefix == "-tag:" || exists field: Field :: t.prefix == FieldName(field) + ":")
  }

  predicate AllKnown(terms: seq<Term>) {
    forall t :: t in terms ==> IsText(t) || IsField(t)
  }

  function TextsOf(terms: seq<Term>): seq<string> {
    if terms == [] then []
    else (if IsText(terms[0]) then [terms[0].value] else []) + TextsOf(terms[1..])
  }

  function FieldsOf(terms: seq<Term>): seq<Term> {
    if terms == [] then []
    else (if IsText(terms[0]) then [] else [terms[0]]) + FieldsOf(terms[1..])
  }

  // ----- what a query is, term by term --------------------------------------------------

  /** A query of readable terms parses exactly when they can be taken in one by one. */
  lemma {:induction false} ParsesExactlyAllTerms(step: Step, q: string, i: nat, s: State, terms: seq<Term>)
    requires i <= |q| && RestIs(q, i, terms) && OnlyErrorsKnowWhere(step) && AllReadable(terms)
    ensures ParseFrom(step, q, i, s).Ok? <==> TakeAll(step, s, terms).Some?
    ensures TakeAll(step, s, terms).Some? ==> ParseFrom(step, q, i, s) == Ok(Finish(TakeAll(step, s, terms).value))
    decreases |terms|
  {
    if TakeAll(step, s, terms).Some? {
      ParsesAllTerms(step, q, i, s, terms);
    } else {
      assert terms[0] in terms;
      if ParseFrom(step, q, i, s).Ok? {
        FirstStands(q, i, terms);
        var after := ReadableTerm(step, q, i, s, terms[0]);
        var next := BehindFirst(step, q, i, after, terms);
        ParsesExactlyAllTerms(step, q, next, after, terms[1..]);
      }
    }
  }

  lemma QueryParsesExactly(lib: Library, terms: seq<Term>)
    requires AllReadable(terms)
    requires Trim(JoinWithSpaces(WriteAll(terms))) == JoinWithSpaces(WriteAll(terms))
    ensures var q, all := JoinWithSpaces(WriteAll(terms)), TakeAll(Taker(lib), State(EMPTY, []), terms);
            && (ParseSpec(lib, q).Ok? <==> all.Some?)
            && (all.Some? ==> ParseSpec(lib, q) == Ok(Finish(all.value)))
  {
    var q := JoinWithSpaces(WriteAll(terms));
    assert q[0..] == q;
    TailStands(q, 0);
    TakerIgnoresPlace(lib);
    ParsesExactlyAllTerms(Taker(lib), q, 0, State(EMPTY, []), terms);
  }

  lemma KnownTermIsReadable(t: Term)
    requires IsText(t) || IsField(t)
    ensures Readable(t)
  {
    if IsField(t) && t.prefix != "-tag:" {
      var field: Field :| t.prefix == FieldName(field) + ":";
      FieldTermIsReadable(field, t.value, t.quoting);
    }
  }

  // ----- texts and fields keep apart -----------------------------------------------------

  lemma TextIsTaken(lib: Library, s: State, t: Term)
    requires IsText(t)
    ensures TakeTerm(Taker(lib), s, t) == Ok(s.(texts := s.texts + [t.value]))
  {
    assert "" + t.value == t.value;
  }

  lemma FieldIsTakenAlone(lib: Library, f: Filter, texts: seq<string>, t: Term)
    requires IsField(t)
    ensures var alone, among := TakeTerm(Taker(lib), State(f, []), t), TakeTerm(Taker(lib), State(f, texts), t);
            && alone.Ok? == among.Ok?
            && (alone.Ok? ==> alone.value.texts == [] && among == Ok(State(alone.value.filter, texts)))
  {
    if t.prefix == "-tag:" {
      NegatedTagIsTaken(lib, State(f, []), t.value);
      NegatedTagIsTaken(lib, State(f, texts), t.value);
    } else {
      var field: Field :| t.prefix == FieldName(field) + ":";
      FieldTokenIsTaken(lib, State(f, []), field, t.value);
      FieldTokenIsTaken(lib, State(f, texts), field, t.value);
    }
  }

  lemma FieldIsNoText(t: Term)
    requires IsField(t)
    ensures !IsText(t)
  {}

  lemma {:induction false} TextsAndFieldsKeepApart(lib: Library, f: Filter, texts: seq<string>, terms: seq<Term>)
    requires AllKnown(terms)
    ensures var step := Taker(lib);
            var alone, all := TakeAll(step, State(f, []), FieldsOf(terms)), TakeAll(step, State(f, texts), terms);
            && alone.Some? == all.Some?
            && (alone.Some? ==>
                  alone.value.texts == [] && all == Some(State(alone.value.filter, texts + TextsOf(terms))))
    decreases |terms|
  {
    if terms == [] {
      assert texts + [] == texts;
    } else {
      var t, rest := terms[0], terms[1..];
      assert t in terms;
      if IsText(t) {
        TextIsTaken(lib, State(f, texts), t);
        assert [] + FieldsOf(rest) == FieldsOf(rest);
        TextsAndFieldsKeepApart(lib, f, texts + [t.value], rest);
        Regroup(texts, [t.value], TextsOf(rest));
      } else {
        FieldIsTakenAlone(lib, f, texts, t);
        assert ([t] + FieldsOf(rest))[1..] == FieldsOf(rest);
        assert [] + TextsOf(rest) == TextsOf(rest);
        var alone := TakeTerm(Taker(lib), State(f, []), t);
        if alone.Ok? {
          TextsAndFieldsKeepApart(lib, alone.value.filter, texts, rest);
        }
      }
    }
  }

  lemma {:induction false} FieldsAreKnown(terms: seq<Term>)
    requires AllKnown(terms)
    ensures forall t :: t in FieldsOf(terms) ==> IsField(t)
  {
    if terms != [] {
      assert terms[0] in terms;
      FieldsAreKnown(terms[1..]);
    }
  }

  lemma KnownAreReadable(terms: seq<Term>)
    requires AllKnown(terms)
    ensures AllReadable(terms) && AllReadable(FieldsOf(terms))
  {
    FieldsAreKnown(terms);
    forall t | t in terms || t in FieldsOf(terms)
      ensures Readable(t)
    {
      KnownTermIsReadable(t);
    }
  }

  /** As it is written: nothing at its ends is trimmed. */
  predicate IsTight(terms: seq<Term>) {
    Trim(JoinWithSpaces(WriteAll(terms))) == JoinWithSpaces(WriteAll(terms))
  }

  /** The text of a query is its free words and quoted texts, in order, with one space between
      each two, whatever fields stand between them; and the fields are what they are alone. */
  lemma TextIsItsWordsInOrder(lib: Library, terms: seq<Term>)
    requires AllKnown(terms) && IsTight(terms) && IsTight(FieldsOf(terms))
    ensures var all := ParseSpec(lib, JoinWithSpaces(WriteAll(terms)));
            var alone := ParseSpec(lib, JoinWithSpaces(WriteAll(FieldsOf(terms))));
            && (all.Ok? <==> alone.Ok?)
            && (all.Ok? ==>
                  all.value == if TextsOf(terms) == [] then alone.value
                               else alone.value.(text := JoinWithSpaces(TextsOf(terms))))
  {
    var all := TakeAll(Taker(lib), State(EMPTY, []), terms);
    var alone := TakeAll(Taker(lib), State(EMPTY, []), FieldsOf(terms));
    assert all.Some? == alone.Some? && (all.Some? ==> all.value == State(alone.value.filter, TextsOf(terms))
                                                      && alone.value.texts == []) by {
      TextsAndFieldsKeepApart(lib, EMPTY, [], terms);
      assert [] + TextsOf(terms) == TextsOf(terms);
    }
    KnownAreReadable(terms);
    QueryParsesExactly(lib, terms);
    QueryParsesExactly(lib, FieldsOf(terms));
  }

  // ----- words as they are typed -------------------------------------------------------

  /** The characters with the property White_Space of Unicode. */
  predicate IsWhite(c: char) {
    var n := c as int;
    || 9 <= n <= 13 || n == 32 || n == 133 || n == 160 || n == 5760 || 8192 <= n <= 8202
    || n == 8232 || n == 8233 || n == 8239 || n == 8287 || n == 12288
  }

  /** A dash that starts a word is the whole word. */
  predicate DashStandsAlone(q: string, i: nat)
    requires i < |q|
  {
    q[i] == '-' && (i == 0 || q[i - 1] == ' ') ==> i + 1 == |q| || q[i + 1] == ' '
  }

  /** Words with one space between each two: no other white space, no quote and no colon. */
  predicate IsPhrase(q: string) {
    && q != "" && q[0] != ' ' && q[|q| - 1] != ' '
    && (forall i :: 0 <= i < |q| ==> q[i] != '"' && q[i] != ':' && (IsWhite(q[i]) ==> q[i] == ' '))
    && (forall i :: 0 < i < |q| && q[i] == ' ' ==> q[i - 1] != ' ')
    && (forall i :: 0 <= i < |q| ==> DashStandsAlone(q, i))
  }

  function FirstSpace(q: string, i: nat): (k: nat)
    requires i <= |q|
    ensures i <= k <= |q| && (k < |q| ==> q[k] == ' ') && forall j :: i <= j < k ==> q[j] != ' '
    decreases |q| - i
  {
    if i == |q| || q[i] == ' ' then i else FirstSpace(q, i + 1)
  }

  lemma NoTabStands(q: string, i: nat)
    requires IsPhrase(q) && i < |q| && q[i] != ' '
    ensures !IsSeparator(q[i])
  {
    assert IsWhite('\t');
  }

  lemma BehindSpaceIsPhrase(q: string, k: nat)
    requires IsPhrase(q) && k < |q| && q[k] == ' '
    ensures k + 1 < |q| && IsPhrase(q[k + 1..])
  {
    var rest := q[k + 1..];
    assert k + 1 < |q| && q[k + 1] != ' ';
    forall i | 0 <= i < |rest|
      ensures DashStandsAlone(rest, i)
    {
      assert DashStandsAlone(q, k + 1 + i);
    }
  }

  lemma FirstWordIsFree(q: string)
    requires IsPhrase(q)
    ensures var k := FirstSpace(q, 0); IsFreeWord(q[..k]) && (k < |q| ==> k + 1 < |q| && IsPhrase(q[k + 1..]))
  {
    var k := FirstSpace(q, 0);
    assert k > 0;
    assert DashStandsAlone(q, 0);
    forall i | 0 <= i < k
      ensures !IsSeparator(q[i])
    {
      NoTabStands(q, i);
    }
    if k < |q| {
      BehindSpaceIsPhrase(q, k);
    }
  }

  /** The words of a phrase, as terms. */
  lemma {:induction false} PhraseIsItsWords(q: string) returns (words: seq<Term>)
    requires IsPhrase(q)
    ensures JoinWithSpaces(WriteAll(words)) == q && forall t :: t in words ==> IsText(t)
    ensures JoinWithSpaces(TextsOf(words)) == q && TextsOf(words) != [] && FieldsOf(words) == []
    decreases |q|
  {
    var k := FirstSpace(q, 0);
    FirstWordIsFree(q);
    var first := Term("", q[..k], false);
    assert Written(first) == q[..k];
    if k == |q| {
      words := [first];
      OneWord(first);
      assert q[..k] == q;
    } else {
      var rest := PhraseIsItsWords(q[k + 1..]);
      words := [first] + rest;
      WordThenRest(first, rest);
      SplitAtSpace(q, k);
    }
  }

  lemma SplitAtSpace(q: string, k: nat)
    requires k < |q| && q[k] == ' '
    ensures q[..k] + " " + q[k + 1..] == q
  {}

  lemma OneWord(t: Term)
    requires IsText(t)
    ensures JoinWithSpaces(WriteAll([t])) == Written(t) && TextsOf([t]) == [t.value] && FieldsOf([t]) == []
  {
    assert TextsOf([t]) == [t.value] + TextsOf([]);
    assert FieldsOf([t]) == [] + FieldsOf([]);
  }

  lemma WordThenRest(first: Term, rest: seq<Term>)
    requires IsText(first) && TextsOf(rest) != [] && FieldsOf(rest) == []
    ensures var words := [first] + rest;
            && JoinWithSpaces(WriteAll(words)) == Written(first) + " " + JoinWithSpaces(WriteAll(rest))
            && JoinWithSpaces(TextsOf(words)) == first.value + " " + JoinWithSpaces(TextsOf(rest))
            && TextsOf(words) != [] && FieldsOf(words) == []
  {
    var words := [first] + rest;
    assert words[1..] == rest;
    assert WriteAll(words)[1..] == WriteAll(rest);
    assert TextsOf(words) == [first.value] + TextsOf(rest);
    assert ([first.value] + TextsOf(rest))[1..] == TextsOf(rest);
  }

  /** What is typed as words is the text, as it was typed, and nothing else. */
  lemma PhraseIsTheText(lib: Library, q: string)
    requires IsPhrase(q)
    ensures ParseSpec(lib, q) == Ok(EMPTY.(text := q))
  {
    var words := PhraseIsItsWords(q);
    assert WriteAll(FieldsOf(words)) == [];
    TextIsItsWordsInOrder(lib, words);
  }

  // ----- white space at the ends, and quotes in a written value -------------------------

  predicate AllWhite(s: string) {
    forall i :: 0 <= i < |s| ==> IsWhite(s[i])
  }

  lemma {:induction false} WhiteEndsAreTrimmed(before: string, q: string, behind: string)
    requires AllWhite(before) && AllWhite(behind)
    requires q != "" && !IsWhite(q[0]) && !IsWhite(q[|q| - 1])
    ensures Trim(before + q + behind) == q
    decreases |before| + |behind|
  {
    var all := before + q + behind;
    if before != "" {
      assert all[1..] == before[1..] + q + behind;
      WhiteEndsAreTrimmed(before[1..], q, behind);
    } else if behind != "" {
      var shorter := behind[..|behind| - 1];
      assert all[..|all| - 1] == before + q + shorter;
      WhiteEndsAreTrimmed(before, q, shorter);
    } else {
      assert all == q;
    }
  }

  /** White space of any kind around a phrase is cut off, and nothing else in front of it is. */
  lemma OnlyWhiteSpaceIsCutOff(lib: Library, before: string, q: string, behind: string, c: char)
    requires IsPhrase(q) && AllWhite(before) && AllWhite(behind)
    requires !IsWhite(c) && c != '"' && c != ':' && c != '-'
    ensures ParseSpec(lib, before + q + behind) == Ok(EMPTY.(text := q))
    ensures ParseSpec(lib, before + [c] + q + behind) == Ok(EMPTY.(text := [c] + q))
  {
    WhiteEndsAreTrimmed(before, q, behind);
    WhiteEndsAreTrimmed("", q, "");
    assert "" + q + "" == q;
    PhraseIsTheText(lib, q);
    var longer := [c] + q;
    LongerPhrase(q, c);
    Regroup(before, [c], q);
    WhiteEndsAreTrimmed(before, longer, behind);
    WhiteEndsAreTrimmed("", longer, "");
    assert "" + longer + "" == longer;
    PhraseIsTheText(lib, longer);
  }

  lemma LongerPhrase(q: string, c: char)
    requires IsPhrase(q) && !IsWhite(c) && c != '"' && c != ':' && c != '-'
    ensures IsPhrase([c] + q)
  {
    var longer := [c] + q;
    forall i | 0 <= i < |longer|
      ensures DashStandsAlone(longer, i)
    {
      if i > 0 {
        assert DashStandsAlone(q, i - 1);
      }
    }
  }

  /** A value is written as it is when no space, tab, colon, quote or backslash is in it, and
      otherwise in quotes, with one backslash more for each quote and backslash of its own. */
  lemma ValuesAreQuotedExactly(s: string)
    ensures QuoteValue(s) == s <==> forall c :: c in " \t:\"\\" ==> c !in s
    ensures QuoteValue(s) != s ==> |QuoteValue(s)| == |s| + 2 + Backslashed(s)
  {
    EscapeGrows(s);
    forall i | 0 <= i < |s|
      ensures IsSpecial(s[i]) <==> s[i] in " \t:\"\\"
    {}
  }

  /** How many quotes and backslashes are in s. */
  function Backslashed(s: string): nat {
    if s == "" then 0 else (if s[0] in "\"\\" then 1 else 0) + Backslashed(s[1..])
  }

  lemma {:induction false} EscapeGrows(s: string)
    ensures |Escape(s)| == |s| + Backslashed(s)
  {
    if s != "" {
      EscapeGrows(s[1..]);
    }
  }
}
