/** The discovery page's list logic (frontend/src/pages/UniversityDiscovery.jsx):
    the multi-criteria filter, the multi-key sort, the category toggle, the
    sort-header toggle and the score colour. */
module UniversityDiscovery {
  import opened Js
  import opened Records
  import opened Wrappers
  import opened FitRubric
  import opened Sequences
  import UniversityRoutes

  // ---------------------------------------------------------------------
  // The filter.

  /** The filter bar. The three limits come from `<select>` options (the
      empty string or a decimal literal); the country and the search text are
      free strings, "" meaning unset. */
  datatype Filters = Filters(country: string, budget: Value, ranking: Value, acceptanceRate: Value, search: string)

  /** The tier the page shows: the client's `categorizeUniversity`, computed
      from the profile and not taken from the entry. */
  function CategoryOf(e: Entry, profile: Option<Profile>): Category {
    UniversityRoutes.CategorizeUniversity(FitScore(Some(e.university), profile))
  }

  /** The search test: the lower-cased query occurs in the lower-cased
      name, country or city. */
  predicate Matches(u: University, search: string) {
    var q := ToLower(search);
    Includes(ToLower(u.name), q) || Includes(ToLower(u.country), q) || Includes(ToLower(u.city), q)
  }

  /** The body of the `filter` callback. A limit that reads as NaN keeps
      every entry, because `x > NaN` is false. */
  predicate Keep(f: Filters, selected: seq<Category>, profile: Option<Profile>, e: Entry) {
    var u := e.university;
    && CategoryOf(e, profile) in selected
    && !(f.country != [] && u.country != f.country)
    && !(Truthy(f.budget) && Gt(ToNumber(u.cost), ParseInt(f.budget)))
    && !(Truthy(f.ranking) && Gt(ToNumber(u.ranking), ParseInt(f.ranking)))
    && !(Truthy(f.acceptanceRate) && Gt(ToNumber(u.acceptanceRate), ParseInt(f.acceptanceRate)))
    && (f.search != [] ==> Matches(u, f.search))
  }

  /** `universities?.filter(...) || []`. */
  function FilteredUniversities(universities: Option<seq<Entry>>, f: Filters, selected: seq<Category>, profile: Option<Profile>): (r: seq<Entry>)
    ensures universities.None? ==> r == []
  {
    match universities
    case None => []
    case Some(list) => Filter(list, e => Keep(f, selected, profile, e))
  }

  /** The filtered list keeps its entries in their order, and keeps exactly
      those that pass every filter that is set: a listed tier, the country,
      cost, ranking and acceptance rate within the limits (when both sides
      are numbers), and the search text in the name, country or city. */
  lemma FilterSpec(list: seq<Entry>, f: Filters, selected: seq<Category>, profile: Option<Profile>, e: Entry)
    ensures Subsequence(FilteredUniversities(Some(list), f, selected, profile), list)
    ensures e in FilteredUniversities(Some(list), f, selected, profile) <==> e in list && Keep(f, selected, profile, e)
    ensures e in FilteredUniversities(Some(list), f, selected, profile) ==>
      var u := e.university;
      && CategoryOf(e, profile) in selected
      && (f.country != [] ==> u.country == f.country)
      && (Truthy(f.budget) && ToNumber(u.cost).Finite? && ParseInt(f.budget).Finite? ==>
            ToNumber(u.cost).x <= ParseInt(f.budget).x)
      && (Truthy(f.ranking) && ToNumber(u.ranking).Finite? && ParseInt(f.ranking).Finite? ==>
            ToNumber(u.ranking).x <= ParseInt(f.ranking).x)
      && (Truthy(f.acceptanceRate) && ToNumber(u.acceptanceRate).Finite? && ParseInt(f.acceptanceRate).Finite? ==>
            ToNumber(u.acceptanceRate).x <= ParseInt(f.acceptanceRate).x)
      && (f.search != [] ==> Matches(u, f.search))
  {
    var p := e => Keep(f, selected, profile, e);
    FilterSubsequence(list, p);
    FilterComplete(list, p, e);
  }

  /** With no filter set and every tier selected, nothing is filtered out. */
  lemma {:induction false} NoFilterKeepsAll(list: seq<Entry>, profile: Option<Profile>)
    ensures FilteredUniversities(Some(list), Filters([], EmptyString, EmptyString, EmptyString, []), [Dream, Target, Safe], profile) == list
  {
    if list != [] {
      NoFilterKeepsAll(list[1..], profile);
      assert list == [list[0]] + list[1..];
    }
  }

  /** `Matches` in terms of offsets: the query occurs at some position of
      one of the three lower-cased fields. */
  lemma MatchesAt(u: University, search: string)
    ensures Matches(u, search) <==>
      var q := ToLower(search);
      (exists i :: OccursAt(ToLower(u.name), q, i))
      || (exists i :: OccursAt(ToLower(u.country), q, i))
      || (exists i :: OccursAt(ToLower(u.city), q, i))
  {
    var q := ToLower(search);
    IncludesAt(ToLower(u.name), q);
    IncludesAt(ToLower(u.country), q);
    IncludesAt(ToLower(u.city), q);
  }

  // ---------------------------------------------------------------------
  // The sort.

  datatype SortField = ByFitScore | ByName | ByCountry | ByCost | ByRanking | ByAcceptanceRate
  datatype SortOrder = Asc | Desc

  /** The `switch (sortBy)`: an unknown field sorts by fit score. */
  function FieldNamed(name: string): (f: SortField)
    ensures f != ByFitScore ==> name in {"name", "country", "cost", "ranking", "acceptanceRate"}
  {
    if name == "name" then ByName
    else if name == "country" then ByCountry
    else if name == "cost" then ByCost
    else if name == "ranking" then ByRanking
    else if name == "acceptanceRate" then ByAcceptanceRate
    else ByFitScore
  }

  /** A numeric sort key: a number, NaN, or `Infinity`. */
  datatype Key = NaNKey | Fin(x: real) | Inf

  function OfNum(n: Num): Key {
    match n
    case NaN => NaNKey
    case Finite(x) => Fin(x)
  }

  /** The key of an entry for a numeric field: the client's fit score, the
      cost, `ranking || Infinity`, `acceptanceRate || 0`. */
  function KeyOf(field: SortField, profile: Option<Profile>, e: Entry): Key {
    match field
    case ByCost => OfNum(ToNumber(e.university.cost))
    case ByRanking => if Truthy(e.university.ranking) then OfNum(ToNumber(e.university.ranking)) else Inf
    case ByAcceptanceRate => if Truthy(e.university.acceptanceRate) then OfNum(ToNumber(e.university.acceptanceRate)) else Fin(0.0)
    case _ => Fin(FitScore(Some(e.university), profile) as real)
  }

  /** `a - b <= 0` as `Array.prototype.sort` reads it: a NaN difference
      (either side NaN, or `Infinity - Infinity`) counts as 0. */
  predicate KeyLe(a: Key, b: Key) {
    match (a, b)
    case (Fin(x), Fin(y)) => x <= y
    case (Inf, Fin(_)) => false
    case _ => true
  }

  /** Without NaN, `KeyLe` is a total preorder with `Infinity` on top. */
  lemma KeyLePreorder(a: Key, b: Key, c: Key)
    requires !a.NaNKey? && !b.NaNKey? && !c.NaNKey?
    ensures KeyLe(a, b) || KeyLe(b, a)
    ensures KeyLe(a, b) && KeyLe(b, c) ==> KeyLe(a, c)
  {
  }

  /** "`a` may precede `b`" under the comparator of the page; `collate` is
      `String.prototype.localeCompare`. */
  function Comparator(field: SortField, order: SortOrder, profile: Option<Profile>, collate: (string, string) -> int): (Entry, Entry) -> bool {
    (a: Entry, b: Entry) =>
      match field
      case ByName =>
        if order == Asc then collate(a.university.name, b.university.name) <= 0
        else collate(b.university.name, a.university.name) <= 0
      case ByCountry =>
        if order == Asc then collate(a.university.country, b.university.country) <= 0
        else collate(b.university.country, a.university.country) <= 0
      case _ =>
        if order == Asc then KeyLe(KeyOf(field, profile, a), KeyOf(field, profile, b))
        else KeyLe(KeyOf(field, profile, b), KeyOf(field, profile, a))
  }

  /** `[...filteredUniversities].sort(...)`: always a permutation. */
  function SortedUniversities(filtered: seq<Entry>, field: SortField, order: SortOrder, profile: Option<Profile>, collate: (string, string) -> int): (r: seq<Entry>)
    ensures multiset(r) == multiset(filtered)
  {
    SortPermutes(filtered, Comparator(field, order, profile, collate));
    Sort(filtered, Comparator(field, order, profile, collate))
  }

  /** `localeCompare` orders strings consistently. */
  ghost predicate ConsistentCollation(collate: (string, string) -> int) {
    && (forall x, y :: collate(x, y) <= 0 || collate(y, x) <= 0)
    && (forall x, y, z :: collate(x, y) <= 0 && collate(y, z) <= 0 ==> collate(x, z) <= 0)
  }

  /** The numeric keys are ordered by `KeyLe` as soon as none is NaN. */
  ghost predicate NoNaNKey(field: SortField, profile: Option<Profile>, s: seq<Entry>) {
    forall e :: e in s ==> !KeyOf(field, profile, e).NaNKey?
  }

  /** A numeric field without NaN keys sorts by its key: ascending for
      'asc', descending otherwise. */
  lemma SortedByKey(filtered: seq<Entry>, field: SortField, order: SortOrder, profile: Option<Profile>, collate: (string, string) -> int)
    requires field !in {ByName, ByCountry}
    requires NoNaNKey(field, profile, filtered)
    ensures var r := SortedUniversities(filtered, field, order, profile, collate);
      forall i, j :: 0 <= i < j < |r| ==>
        if order == Asc then KeyLe(KeyOf(field, profile, r[i]), KeyOf(field, profile, r[j]))
        else KeyLe(KeyOf(field, profile, r[j]), KeyOf(field, profile, r[i]))
  {
    var le := Comparator(field, order, profile, collate);
    var dom := set e | e in filtered;
    forall a, b, c | a in dom && b in dom && c in dom
      ensures le(a, b) || le(b, a)
      ensures le(a, b) && le(b, c) ==> le(a, c)
    {
      KeyLePreorder(KeyOf(field, profile, a), KeyOf(field, profile, b), KeyOf(field, profile, c));
      KeyLePreorder(KeyOf(field, profile, c), KeyOf(field, profile, b), KeyOf(field, profile, a));
    }
    assert PreorderOn(le, dom);
    SortSorted(filtered, le, dom);
  }

  /** The default view: descending client fit score. */
  lemma DefaultSortDescending(filtered: seq<Entry>, profile: Option<Profile>, collate: (string, string) -> int)
    ensures var r := SortedUniversities(filtered, ByFitScore, Desc, profile, collate);
      forall i, j :: 0 <= i < j < |r| ==>
        FitScore(Some(r[i].university), profile) >= FitScore(Some(r[j].university), profile)
  {
    SortedByKey(filtered, ByFitScore, Desc, profile, collate);
  }

  /** Name and country sort in collation order, given a consistent
      `localeCompare`. */
  lemma SortedByText(filtered: seq<Entry>, order: SortOrder, profile: Option<Profile>, collate: (string, string) -> int)
    requires ConsistentCollation(collate)
    ensures var r := SortedUniversities(filtered, ByName, order, profile, collate);
      forall i, j :: 0 <= i < j < |r| ==>
        if order == Asc then collate(r[i].university.name, r[j].university.name) <= 0
        else collate(r[j].university.name, r[i].university.name) <= 0
    ensures var r := SortedUniversities(filtered, ByCountry, order, profile, collate);
      forall i, j :: 0 <= i < j < |r| ==>
        if order == Asc then collate(r[i].university.country, r[j].university.country) <= 0
        else collate(r[j].university.country, r[i].university.country) <= 0
  {
    var dom := set e | e in filtered;
    var byName := Comparator(ByName, order, profile, collate);
    var byCountry := Comparator(ByCountry, order, profile, collate);
    forall a, b, c | a in dom && b in dom && c in dom
      ensures byName(a, b) || byName(b, a)
      ensures byName(a, b) && byName(b, c) ==> byName(a, c)
      ensures byCountry(a, b) || byCountry(b, a)
      ensures byCountry(a, b) && byCountry(b, c) ==> byCountry(a, c)
    {
      var x, y, z := a.university.name, b.university.name, c.university.name;
      assert collate(x, y) <= 0 || collate(y, x) <= 0;
      assert collate(x, y) <= 0 && collate(y, z) <= 0 ==> collate(x, z) <= 0;
      assert collate(z, y) <= 0 && collate(y, x) <= 0 ==> collate(z, x) <= 0;
      var u, v, w := a.university.country, b.university.country, c.university.country;
      assert collate(u, v) <= 0 || collate(v, u) <= 0;
      assert collate(u, v) <= 0 && collate(v, w) <= 0 ==> collate(u, w) <= 0;
      assert collate(w, v) <= 0 && collate(v, u) <= 0 ==> collate(w, u) <= 0;
    }
    SortSorted(filtered, byName, dom);
    SortSorted(filtered, byCountry, dom);
  }

  /** Unranked universities (`ranking || Infinity`) sort after every ranked
      one in ascending order. */
  lemma UnrankedLast(filtered: seq<Entry>, profile: Option<Profile>, collate: (string, string) -> int)
    ensures var r := SortedUniversities(filtered, ByRanking, Asc, profile, collate);
      forall i, j :: 0 <= i < j < |r| && !Truthy(r[i].university.ranking) ==> !Truthy(r[j].university.ranking)
  {
    var r := SortedUniversities(filtered, ByRanking, Asc, profile, collate);
    assert NoNaNKey(ByRanking, profile, filtered);
    SortedByKey(filtered, ByRanking, Asc, profile, collate);
    forall i, j | 0 <= i < j < |r| && !Truthy(r[i].university.ranking) ensures !Truthy(r[j].university.ranking) {
      assert r[j] in multiset(filtered);
      assert KeyLe(KeyOf(ByRanking, profile, r[i]), KeyOf(ByRanking, profile, r[j]));
    }
  }

  // ---------------------------------------------------------------------
  // The toggles and the colour.

  /** `handleCategoryToggle(category)`. */
  function ToggleCategory(selected: seq<Category>, category: Category): (r: seq<Category>)
    ensures category in r <==> category !in selected
    ensures forall c :: c != category ==> (c in r <==> c in selected)
  {
    Toggle(selected, category)
  }

  /** Toggling a category twice restores the selection. */
  lemma ToggleCategoryTwice(selected: seq<Category>, category: Category)
    ensures forall c :: c in ToggleCategory(ToggleCategory(selected, category), category) <==> c in selected
  {
    ToggleTwice(selected, category);
  }

  datatype SortState = SortState(sortBy: SortField, sortOrder: SortOrder)

  /** `handleSort(field)`: the current field flips the order, another field
      is selected in descending order. */
  function HandleSort(s: SortState, field: SortField): (r: SortState)
    ensures r.sortBy == field
    ensures field == s.sortBy ==> r.sortOrder != s.sortOrder
    ensures field != s.sortBy ==> r.sortOrder == Desc
  {
    if s.sortBy == field then s.(sortOrder := if s.sortOrder == Asc then Desc else Asc)
    else SortState(field, Desc)
  }

  /** Clicking the same header twice restores the view. */
  lemma HandleSortTwice(s: SortState, field: SortField)
    ensures HandleSort(HandleSort(s, field), field) == (if field == s.sortBy then s else SortState(field, Asc))
  {
  }

  datatype Color = Green | Yellow | Red

  /** `getFitScoreColor(score)`. */
  function FitScoreColor(score: int): (c: Color)
    ensures c == Green <==> UniversityRoutes.CategorizeUniversity(score) == Safe
    ensures c == Yellow <==> UniversityRoutes.CategorizeUniversity(score) == Target
    ensures c == Red <==> UniversityRoutes.CategorizeUniversity(score) == Dream
  {
    if score >= 80 then Green
    else if score >= 60 then Yellow
    else Red
  }
}
