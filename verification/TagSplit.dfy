/** Which tag chips to show and which to fold away: `splitTags` in
    view/log_filters_templ.go. */
module TagSplit {
  const VISIBLE_TAGS: nat := 10

  datatype TagCount = TagCount(tag: string, count: int)

  datatype TagState = Neutral | Included | Excluded

  datatype Filter = Filter(tags: seq<string>, excludeTags: seq<string>) {
    function StateForTag(tag: string): TagState {
      if tag in tags then Included
      else if tag in excludeTags then Excluded
      else Neutral
    }
  }

  predicate Active(f: Filter, tc: TagCount) {
    f.StateForTag(tc.tag) != Neutral
  }

  /** The filter asks for the tag or against it. */
  predicate Mentions(f: Filter, tag: string) {
    tag in f.tags || tag in f.excludeTags
  }

  /** Which of the first i tags are shown, one flag for each. */
  ghost function Flags(tags: seq<TagCount>, f: Filter, i: nat): (flags: seq<bool>)
    requires i <= |tags|
    ensures |flags| == i
  {
    if i == 0 then []
    else
      var before := Flags(tags, f, i - 1);
      before + [Active(f, tags[i - 1]) || |Select(tags[..i - 1], before, true)| < VISIBLE_TAGS]
  }

  /** The elements whose flag is `which`, in order. */
  ghost function Select<T>(s: seq<T>, flags: seq<bool>, which: bool): seq<T>
    requires |s| == |flags|
  {
    if s == [] then []
    else
      var n := |s| - 1;
      Select(s[..n], flags[..n], which) + if flags[n] == which then [s[n]] else []
  }

  method SplitTags(tags: seq<TagCount>, f: Filter) returns (shown: seq<TagCount>, rest: seq<TagCount>)
    ensures shown == Select(tags, Flags(tags, f, |tags|), true)
    ensures rest == Select(tags, Flags(tags, f, |tags|), false)
  {
    shown, rest := [], [];
    for i := 0 to |tags|
      invariant shown == Select(tags[..i], Flags(tags, f, i), true)
      invariant rest == Select(tags[..i], Flags(tags, f, i), false)
    {
      var tc := tags[i];
      var active := f.StateForTag(tc.tag) != Neutral;
      ghost var flags := Flags(tags, f, i + 1);
      assert tags[..i + 1][..i] == tags[..i] && flags[..i] == Flags(tags, f, i);
      if active || |shown| < VISIBLE_TAGS {
        shown := shown + [tc];
      } else {
        rest := rest + [tc];
      }
    }
    assert tags[..|tags|] == tags;
  }

  lemma {:induction false} SelectPartitions<T>(s: seq<T>, flags: seq<bool>)
    requires |s| == |flags|
    ensures multiset(Select(s, flags, true)) + multiset(Select(s, flags, false)) == multiset(s)
  {
    if s != [] {
      var n := |s| - 1;
      SelectPartitions(s[..n], flags[..n]);
      var yes, no := Select(s[..n], flags[..n], true), Select(s[..n], flags[..n], false);
      var one := multiset{s[n]};
      assert multiset(s) == multiset(s[..n]) + one by {
        assert s == s[..n] + [s[n]];
      }
      if flags[n] {
        assert Select(s, flags, true) == yes + [s[n]] && Select(s, flags, false) == no + [];
        assert multiset(yes) + one + multiset(no) == multiset(yes) + multiset(no) + one;
      } else {
        assert Select(s, flags, true) == yes + [] && Select(s, flags, false) == no + [s[n]];
      }
    }
  }

  lemma {:induction false} Selected<T>(s: seq<T>, flags: seq<bool>, which: bool, i: nat)
    requires |s| == |flags| && i < |s| && flags[i] == which
    ensures s[i] in Select(s, flags, which)
  {
    var n := |s| - 1;
    if i < n {
      Selected(s[..n], flags[..n], which, i);
    }
  }

  lemma {:induction false} FlagsAreStable(tags: seq<TagCount>, f: Filter, i: nat, j: nat)
    requires i <= j <= |tags|
    ensures Flags(tags, f, j)[..i] == Flags(tags, f, i)
  {
    if i < j {
      FlagsAreStable(tags, f, i, j - 1);
    }
  }

  /** The rule for one tag: shown when the filter mentions it or fewer than ten were shown
      before it; so a neutral tag is folded exactly when ten or more already were. */
  lemma FlagRule(tags: seq<TagCount>, f: Filter, i: nat)
    requires i < |tags|
    ensures var flags := Flags(tags, f, |tags|);
            flags[i] <==> Mentions(f, tags[i].tag) || |Select(tags[..i], flags[..i], true)| < 10
  {
    FlagsAreStable(tags, f, i, |tags|);
    FlagsAreStable(tags, f, i + 1, |tags|);
    assert Flags(tags, f, |tags|)[i] == Flags(tags, f, |tags|)[..i + 1][i];
  }

  lemma {:induction false} SelectGrows<T>(s: seq<T>, flags: seq<bool>, which: bool, i: nat)
    requires |s| == |flags| && i <= |s|
    ensures |Select(s[..i], flags[..i], which)| <= |Select(s, flags, which)|
  {
    if i < |s| {
      var n := |s| - 1;
      SelectGrows(s[..n], flags[..n], which, i);
      assert s[..n][..i] == s[..i] && flags[..n][..i] == flags[..i];
    } else {
      assert s[..i] == s && flags[..i] == flags;
    }
  }

  lemma MentionedTagsAreShown(tags: seq<TagCount>, f: Filter, tc: TagCount)
    requires tc in tags && Mentions(f, tc.tag)
    ensures tc in Select(tags, Flags(tags, f, |tags|), true)
  {
    var i :| 0 <= i < |tags| && tags[i] == tc;
    FlagRule(tags, f, i);
    Selected(tags, Flags(tags, f, |tags|), true, i);
  }

  lemma FoldedTagsAreNeutral(tags: seq<TagCount>, f: Filter, tc: TagCount)
    requires tc in Select(tags, Flags(tags, f, |tags|), false)
    ensures !Mentions(f, tc.tag) && |Select(tags, Flags(tags, f, |tags|), true)| >= 10
  {
    var flags := Flags(tags, f, |tags|);
    FoldedAreUnflagged(tags, flags);
    var i :| 0 <= i < |tags| && tags[i] == tc && !flags[i];
    FlagRule(tags, f, i);
    SelectGrows(tags, flags, true, i);
  }

  /** The split loses nothing and shows every tag the filter mentions; something is folded
      only behind ten chips, and only when it is neutral; a short list is shown whole. */
  lemma SplitLaws(tags: seq<TagCount>, f: Filter)
    ensures var flags := Flags(tags, f, |tags|);
            var shown := Select(tags, flags, true); var rest := Select(tags, flags, false);
            && multiset(shown) + multiset(rest) == multiset(tags)
            && (forall tc :: tc in tags && Mentions(f, tc.tag) ==> tc in shown)
            && (forall tc :: tc in rest ==> !Mentions(f, tc.tag) && |shown| >= 10)
            && (|tags| <= 10 ==> shown == tags && rest == [])
  {
    SelectPartitions(tags, Flags(tags, f, |tags|));
    forall tc | tc in tags && Mentions(f, tc.tag)
      ensures tc in Select(tags, Flags(tags, f, |tags|), true)
    {
      MentionedTagsAreShown(tags, f, tc);
    }
    forall tc | tc in Select(tags, Flags(tags, f, |tags|), false)
      ensures !Mentions(f, tc.tag) && |Select(tags, Flags(tags, f, |tags|), true)| >= 10
    {
      FoldedTagsAreNeutral(tags, f, tc);
    }
    if |tags| <= 10 {
      FewTagsAreAllShown(tags, f, |tags|);
      assert tags[..|tags|] == tags;
    }
  }

  lemma {:induction false} FoldedAreUnflagged<T>(s: seq<T>, flags: seq<bool>)
    requires |s| == |flags|
    ensures forall x :: x in Select(s, flags, false) ==> exists i :: 0 <= i < |s| && s[i] == x && !flags[i]
  {
    if s != [] {
      var n := |s| - 1;
      FoldedAreUnflagged(s[..n], flags[..n]);
      forall x | x in Select(s, flags, false)
        ensures exists i :: 0 <= i < |s| && s[i] == x && !flags[i]
      {
        if x in Select(s[..n], flags[..n], false) {
          var i :| 0 <= i < n && s[..n][i] == x && !flags[..n][i];
          assert s[i] == x && !flags[i];
        } else {
          assert s[n] == x && !flags[n];
        }
      }
    }
  }

  lemma {:induction false} FewTagsAreAllShown(tags: seq<TagCount>, f: Filter, i: nat)
    requires i <= |tags| <= 10
    ensures Select(tags[..i], Flags(tags, f, i), true) == tags[..i]
    ensures Select(tags[..i], Flags(tags, f, i), false) == []
  {
    if i > 0 {
      FewTagsAreAllShown(tags, f, i - 1);
      var flags := Flags(tags, f, i);
      assert tags[..i][..i - 1] == tags[..i - 1] && flags[..i - 1] == Flags(tags, f, i - 1);
    } else {
      assert tags[..i] == [];
    }
  }
}
