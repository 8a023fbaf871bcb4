/** The favourites editor of the client: the list of favourite groups
    narrowed by a search and by a first-letter category, the categories on
    offer, and the product count shown on each row. */
module EditFavorites {
  import opened Wrappers
  import opened Seqs
  import opened Strings
  import opened Numerals

  /** A row of the editor: the group's id, its ingredient name, its picture
      if it has one, and how many products it holds. */
  datatype FavoriteGroup = FavoriteGroup(id: string, ingredientName: string, imageUrl: Option<string>, productCount: int)

  /** The category that leaves the list unfiltered. */
  const AllCategories := "All"

  /** The group's lower-cased name contains `q`. */
  function NameMatches(q: string): FavoriteGroup -> bool {
    (g: FavoriteGroup) => Contains(Lower(g.ingredientName), q)
  }

  /** The group's lower-cased name starts with the lower-cased category. */
  function InCategory(category: string): FavoriteGroup -> bool {
    (g: FavoriteGroup) => StartsWith(Lower(g.ingredientName), Lower(category))
  }

  /** The search step: every group for a blank query, otherwise those whose
      name contains the trimmed, lower-cased query. */
  function BySearch(groups: seq<FavoriteGroup>, query: string): seq<FavoriteGroup> {
    if Blank(query) then groups else Filter(NameMatches(SearchKey(query)), groups)
  }

  /** The category step: every group for "All", otherwise those whose name
      starts with the category, case aside. */
  function ByCategory(groups: seq<FavoriteGroup>, category: string): seq<FavoriteGroup> {
    if category == AllCategories then groups else Filter(InCategory(category), groups)
  }

  /** `filteredGroups`: the search step followed by the category step. */
  function FilteredGroups(groups: seq<FavoriteGroup>, query: string, category: string): (r: seq<FavoriteGroup>)
    ensures Blank(query) && category == AllCategories ==> r == groups
    ensures SubseqOf(r, groups)
  {
    FilteredGroupsIsFilter(groups, query, category);
    ByCategory(BySearch(groups, query), category)
  }

  /** Whether a single group passes both steps. */
  predicate Keeps(query: string, category: string, g: FavoriteGroup) {
    (Blank(query) || Contains(Lower(g.ingredientName), SearchKey(query))) &&
    (category == AllCategories || StartsWith(Lower(g.ingredientName), Lower(category)))
  }

  function KeepsFn(query: string, category: string): FavoriteGroup -> bool {
    (g: FavoriteGroup) => Keeps(query, category, g)
  }

  /** The two steps together are one filter by the combined test, so the
      result keeps the groups' order. */
  lemma FilteredGroupsIsFilter(groups: seq<FavoriteGroup>, query: string, category: string)
    ensures ByCategory(BySearch(groups, query), category) == Filter(KeepsFn(query, category), groups)
    ensures SubseqOf(ByCategory(BySearch(groups, query), category), groups)
  {
    var keep := KeepsFn(query, category);
    if Blank(query) && category == AllCategories {
      FilterKeepsAll(keep, groups);
    } else if Blank(query) {
      FilterAgree(InCategory(category), keep, groups);
    } else if category == AllCategories {
      FilterAgree(NameMatches(SearchKey(query)), keep, groups);
    } else {
      FilterTwice(NameMatches(SearchKey(query)), InCategory(category), groups);
      FilterAgree(Both(NameMatches(SearchKey(query)), InCategory(category)), keep, groups);
    }
    FilterIsSubseq(keep, groups);
  }

  /** A group is listed exactly when it is one of the groups and passes both
      the search and the category. */
  lemma FilteredGroupsMembers(groups: seq<FavoriteGroup>, query: string, category: string, g: FavoriteGroup)
    ensures g in FilteredGroups(groups, query, category) <==> g in groups && Keeps(query, category, g)
  {
    FilteredGroupsIsFilter(groups, query, category);
    FilterMembers(KeepsFn(query, category), groups);
  }

  /** Applying the category before the search lists the same groups in the
      same order. */
  lemma FilterStepsCommute(groups: seq<FavoriteGroup>, query: string, category: string)
    ensures BySearch(ByCategory(groups, category), query) == FilteredGroups(groups, query, category)
  {
    FilteredGroupsIsFilter(groups, query, category);
    var keep := KeepsFn(query, category);
    if Blank(query) && category == AllCategories {
    } else if Blank(query) {
    } else if category == AllCategories {
    } else {
      FilterTwice(InCategory(category), NameMatches(SearchKey(query)), groups);
      FilterAgree(Both(InCategory(category), NameMatches(SearchKey(query))), keep, groups);
    }
  }

  /** The category letter of a group: the first character of its name,
      upper-cased, or the empty string for an empty name. */
  function Letter(g: FavoriteGroup): string {
    FirstLetterUpper(g.ingredientName)
  }

  /** In strictly increasing string order, so without repeats. */
  predicate StrictlySorted(s: seq<string>) {
    forall i, j :: 0 <= i < j < |s| ==> Less(s[i], s[j])
  }

  /** Something below the head of a strictly sorted list is below all of
      it. */
  lemma BelowAll(x: string, s: seq<string>)
    requires StrictlySorted(s) && s != [] && Less(x, s[0])
    ensures forall j :: 0 <= j < |s| ==> Less(x, s[j])
  {
    forall j | 0 < j < |s| {
      LessTransitive(x, s[0], s[j]);
    }
  }

  /** `x` added to a strictly sorted list, unless it is already there. */
  function InsertLetter(s: seq<string>, x: string): (r: seq<string>)
    requires StrictlySorted(s)
    ensures StrictlySorted(r)
    ensures forall y :: y in r <==> y in s || y == x
  {
    if s == [] then [x]
    else if x == s[0] then s
    else if Less(x, s[0]) then
      BelowAll(x, s);
      [x] + s
    else
      LessTotal(x, s[0]);
      var rest := InsertLetter(s[1..], x);
      assert forall y :: y in rest ==> Less(s[0], y);
      [s[0]] + rest
  }

  /** The letters of the groups, without repeats, in sorted order. */
  function Letters(groups: seq<FavoriteGroup>): (r: seq<string>)
    ensures StrictlySorted(r)
    ensures forall y :: y in r <==> y in Map(Letter, groups)
  {
    if groups == [] then []
    else
      var init := groups[..|groups| - 1];
      assert Map(Letter, groups) == Map(Letter, init) + [Letter(groups[|groups| - 1])];
      InsertLetter(Letters(init), Letter(groups[|groups| - 1]))
  }

  /** The category options: "All", then every letter a group name starts
      with, once each, sorted. */
  function CategoryOptions(groups: seq<FavoriteGroup>): (r: seq<string>)
    ensures |r| >= 1 && r[0] == AllCategories
    ensures StrictlySorted(r[1..])
    ensures forall y :: y in r[1..] <==> exists i :: 0 <= i < |groups| && y == Letter(groups[i])
    ensures forall y :: y in r[1..] ==> |y| <= 1
  {
    var letters := Letters(groups);
    assert forall i :: 0 <= i < |groups| ==> Map(Letter, groups)[i] == Letter(groups[i]);
    assert ([AllCategories] + letters)[1..] == letters;
    [AllCategories] + letters
  }

  lemma HeadIsMember(s: seq<string>)
    ensures s != [] ==> s[0] in s
  {
  }

  /** Two strictly sorted lists with the same elements are the same list. */
  lemma {:induction false} StrictlySortedUnique(a: seq<string>, b: seq<string>)
    requires StrictlySorted(a) && StrictlySorted(b)
    requires forall y :: y in a <==> y in b
    ensures a == b
    decreases |a|
  {
    if a != [] {
      assert a[0] in b;
      assert b != [];
      assert b[0] in a;
      var k :| 0 <= k < |a| && a[k] == b[0];
      var m :| 0 <= m < |b| && b[m] == a[0];
      LessAsymmetric(a[0], b[0]);
      assert a[0] == b[0];
      LessIrreflexive(a[0]);
      forall y
        ensures y in a[1..] <==> y in b[1..]
      {
        if y in a[1..] {
          var i :| 1 <= i < |a| && a[i] == y;
          assert Less(a[0], a[i]);
          assert y in b;
          var k :| 0 <= k < |b| && b[k] == y;
          assert b[1..][k - 1] == y;
        }
        if y in b[1..] {
          var i :| 1 <= i < |b| && b[i] == y;
          assert Less(b[0], b[i]);
          assert y in a;
          var k :| 0 <= k < |a| && a[k] == y;
          assert a[1..][k - 1] == y;
        }
      }
      StrictlySortedUnique(a[1..], b[1..]);
    } else {
      HeadIsMember(b);
    }
  }

  /** The options do not depend on the order or the repeats of the groups,
      only on which letters occur. */
  lemma CategoryOptionsOrderFree(a: seq<FavoriteGroup>, b: seq<FavoriteGroup>)
    requires forall g :: g in a <==> g in b
    ensures CategoryOptions(a) == CategoryOptions(b)
  {
    var la := Letters(a);
    var lb := Letters(b);
    forall y
      ensures y in la <==> y in lb
    {
      if y in la {
        var i :| 0 <= i < |a| && Map(Letter, a)[i] == y;
        assert a[i] in b;
        var j :| 0 <= j < |b| && b[j] == a[i];
        assert Map(Letter, b)[j] == y;
      }
      if y in lb {
        var j :| 0 <= j < |b| && Map(Letter, b)[j] == y;
        assert b[j] in a;
        var i :| 0 <= i < |a| && a[i] == b[j];
        assert Map(Letter, a)[i] == y;
      }
    }
    StrictlySortedUnique(la, lb);
  }

  /** The count shown on a row: the number, then "product", with an "s"
      unless the number is exactly one. */
  function ProductCountText(count: int): (r: string)
    ensures |r| >= |IntToString(count)| + 8
    ensures ParseInt(r[..|IntToString(count)|]) == count
    ensures r[|IntToString(count)|..] == " product" <==> count == 1
    ensures r[|IntToString(count)|..] == " products" <==> count != 1
  {
    IntToStringRoundTrip(count);
    var n := IntToString(count);
    var word := if count != 1 then " products" else " product";
    assert (n + word)[..|n|] == n && (n + word)[|n|..] == word;
    n + word
  }
}
