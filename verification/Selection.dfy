/** Model patterns and the order in which the routes that match a model are tried. */
module Selection {
  import opened Prelude
  import opened Text
  import Sorting

  const MAX_MODEL_LENGTH := 128

  predicate IsModelChar(c: char) {
    IsAlphanumeric(c) || c in "._:/-"
  }

  predicate HasPair(s: string, a: char, b: char) {
    exists i :: 0 <= i < |s| - 1 && s[i] == a && s[i + 1] == b
  }

  predicate IsModelId(s: string) {
    && 0 < |s| <= MAX_MODEL_LENGTH
    && IsAlphanumeric(s[0]) && IsAlphanumeric(s[|s| - 1])
    && (forall i :: 0 <= i < |s| ==> IsModelChar(s[i]))
    && !HasPair(s, '.', '.') && !HasPair(s, '/', '/') && !HasPair(s, ':', '/')
  }

  ghost predicate Contains(s: string, part: string) {
    exists a: string, b: string :: s == a + part + b
  }

  lemma PairIsPart(s: string, a: char, b: char)
    ensures HasPair(s, a, b) <==> Contains(s, [a, b])
  {
    if HasPair(s, a, b) {
      var i :| 0 <= i < |s| - 1 && s[i] == a && s[i + 1] == b;
      assert s == s[..i] + [a, b] + s[i + 2..];
    }
    if Contains(s, [a, b]) {
      var x, y :| s == x + [a, b] + y;
      assert s[|x|] == a && s[|x| + 1] == b;
    }
  }

  /** A model id is short, made of a conservative alphabet, and can neither climb nor look like a URL. */
  lemma ModelIdsAre(s: string)
    ensures IsModelId(s)
       <==> && 1 <= |s| <= 128 && IsAlphanumeric(s[0]) && IsAlphanumeric(s[|s| - 1])
            && (forall c :: c in s ==> IsAlphanumeric(c) || c == '.' || c == '_' || c == ':' || c == '/' || c == '-')
            && !Contains(s, "..") && !Contains(s, "//") && !Contains(s, ":/")
  {
    PairIsPart(s, '.', '.');
    PairIsPart(s, '/', '/');
    PairIsPart(s, ':', '/');
    assert ['.', '.'] == ".." && ['/', '/'] == "//" && [':', '/'] == ":/";
    assert forall i :: 0 <= i < |s| ==> s[i] in s;
  }

  predicate IsWildcard(pattern: string) {
    pattern != "" && pattern[|pattern| - 1] == '*'
  }

  function PrefixOf(pattern: string): string
    requires IsWildcard(pattern)
  {
    pattern[..|pattern| - 1]
  }

  /** An exact model id, or one with a single trailing star. */
  predicate IsPattern(pattern: string) {
    if IsWildcard(pattern) then IsModelId(PrefixOf(pattern)) else IsModelId(pattern)
  }

  predicate Matches(pattern: string, model: string) {
    if IsWildcard(pattern) then PrefixOf(pattern) <= model else model == pattern
  }

  /** A star at the end stands for anything, nothing included; without one a pattern is the model itself. */
  lemma StarMatchesAnything(prefix: string, model: string)
    ensures Matches(prefix + "*", model) <==> exists rest: string :: model == prefix + rest
    ensures !IsWildcard(prefix) ==> (Matches(prefix, model) <==> model == prefix)
  {
    var pattern := prefix + "*";
    assert pattern[..|pattern| - 1] == prefix;
    if prefix <= model {
      assert model == prefix + model[|prefix|..];
    }
  }

  function Specificity(pattern: string): int {
    if IsWildcard(pattern) then |pattern| - 1 else MAX_MODEL_LENGTH + 1
  }

  datatype Route = Route(
    id: string,
    model: string,
    enabled: bool,
    priority: int,
    providerId: string,
    freeOnly: bool)

  /** Lexicographic order by code. */
  predicate StringLess(a: string, b: string) {
    if b == "" then false
    else if a == "" then true
    else a[0] < b[0] || (a[0] == b[0] && StringLess(a[1..], b[1..]))
  }

  /** The sign of the comparator: specificity, then priority, both descending, then id ascending. */
  function Compare(left: Route, right: Route): int {
    var specificity := Specificity(right.model) - Specificity(left.model);
    if specificity != 0 then specificity
    else if right.priority != left.priority then right.priority - left.priority
    else if StringLess(left.id, right.id) then -1
    else if StringLess(right.id, left.id) then 1
    else 0
  }

  datatype SelectError = InvalidModel | InvalidRouteConfig | NoRoute

  function Matching(routes: seq<Route>, model: string): seq<Route> {
    if routes == [] then []
    else
      (if routes[0].enabled && Matches(routes[0].model, model) then [routes[0]] else [])
      + Matching(routes[1..], model)
  }

  /** An enabled route with a malformed pattern fails the whole resolution. */
  function ResolveCandidates(routes: seq<Route>, model: string): Result<seq<Route>, SelectError> {
    if !IsModelId(model) then Err(InvalidModel)
    else if exists r :: r in routes && r.enabled && !IsPattern(r.model) then Err(InvalidRouteConfig)
    else Ok(Sorting.SortBy(Compare, Matching(routes, model)))
  }

  // ---- the order is strict and total ---------------------------------------------------------

  lemma {:induction false} StringLessIsTotal(a: string, b: string)
    ensures !(StringLess(a, b) && StringLess(b, a))
    ensures StringLess(a, b) || StringLess(b, a) || a == b
    ensures a == b ==> !StringLess(a, b)
  {
    if a != "" && b != "" {
      StringLessIsTotal(a[1..], b[1..]);
      assert a == [a[0]] + a[1..] && b == [b[0]] + b[1..];
    }
  }

  lemma {:induction false} StringLessIsTransitive(a: string, b: string, c: string)
    requires StringLess(a, b) && StringLess(b, c)
    ensures StringLess(a, c)
  {
    if a != "" && a[0] == b[0] && b[0] == c[0] {
      StringLessIsTransitive(a[1..], b[1..], c[1..]);
    }
  }

  lemma CompareIsStrictTotal(x: Route, y: Route, z: Route)
    ensures Compare(x, y) == 0
       <==> Specificity(x.model) == Specificity(y.model) && x.priority == y.priority && x.id == y.id
    ensures Compare(x, y) < 0 <==> Compare(y, x) > 0
    ensures Compare(x, y) < 0 && Compare(y, z) < 0 ==> Compare(x, z) < 0
  {
    StringLessIsTotal(x.id, y.id);
    StringLessIsTotal(y.id, z.id);
    StringLessIsTotal(x.id, z.id);
    if StringLess(x.id, y.id) && StringLess(y.id, z.id) {
      StringLessIsTransitive(x.id, y.id, z.id);
    }
  }

  lemma CompareIsConsistent()
    ensures Sorting.Consistent(Compare)
  {
    forall x, y ensures Compare(x, y) < 0 <==> Compare(y, x) > 0 {
      CompareIsStrictTotal(x, y, x);
    }
    forall x, y, z | Compare(x, y) < 0 && Compare(y, z) < 0 ensures Compare(x, z) < 0 {
      CompareIsStrictTotal(x, y, z);
    }
  }

  ghost predicate DistinctIds(routes: seq<Route>) {
    forall i, j :: 0 <= i < j < |routes| ==> routes[i].id != routes[j].id
  }

  lemma DistinctIdsDoNotTie(routes: seq<Route>)
    requires DistinctIds(routes)
    ensures Sorting.NoTies(Compare, routes)
  {
    forall i, j | 0 <= i < j < |routes| ensures Compare(routes[i], routes[j]) != 0 {
      CompareIsStrictTotal(routes[i], routes[j], routes[i]);
    }
  }

  lemma {:induction false} MatchingMembers(routes: seq<Route>, model: string)
    ensures forall r :: r in Matching(routes, model) <==> r in routes && r.enabled && Matches(r.model, model)
  {
    if routes != [] {
      MatchingMembers(routes[1..], model);
      assert routes == [routes[0]] + routes[1..];
    }
  }

  lemma {:induction false} MatchingIsDistinct(routes: seq<Route>, model: string)
    requires DistinctIds(routes)
    ensures DistinctIds(Matching(routes, model))
  {
    if routes != [] {
      MatchingIsDistinct(routes[1..], model);
      var rest := Matching(routes[1..], model);
      forall i | 0 <= i < |rest| ensures rest[i].id != routes[0].id {
        MatchingMembers(routes[1..], model);
        assert rest[i] in routes[1..];
        var k :| 0 <= k < |routes[1..]| && routes[1..][k] == rest[i];
        assert routes[k + 1] == rest[i];
      }
    }
  }

  lemma {:induction false} MatchingCounts(routes: seq<Route>, model: string, r: Route)
    ensures multiset(Matching(routes, model))[r]
            == if r.enabled && Matches(r.model, model) then multiset(routes)[r] else 0
  {
    if routes != [] {
      MatchingCounts(routes[1..], model, r);
      assert routes == [routes[0]] + routes[1..];
    }
  }

  /** Two patterns that match one model and rank equally specific are the same pattern. */
  lemma EqualSpecificityIsOnePattern(p: string, q: string, model: string)
    requires IsModelId(model) && IsPattern(p) && IsPattern(q)
    requires Matches(p, model) && Matches(q, model) && Specificity(p) == Specificity(q)
    ensures p == q
  {
    if IsWildcard(p) {
      assert PrefixOf(p) == model[..|p| - 1] == PrefixOf(q);
      assert p == PrefixOf(p) + "*" && q == PrefixOf(q) + "*";
    }
  }

  /**
   * The candidates are the enabled matching routes, each once: exact patterns first, then
   * longer prefixes before shorter ones, and priority and id decide only between routes of
   * one and the same pattern.
   */
  lemma CandidatesAreRanked(routes: seq<Route>, model: string)
    requires DistinctIds(routes)
    ensures var r := ResolveCandidates(routes, model);
            && (r == Err(InvalidModel) <==> !IsModelId(model))
            && (r.Ok? ==>
                  && (forall x :: x in r.value <==> x in routes && x.enabled && Matches(x.model, model))
                  && DistinctIds(r.value)
                  && forall i, j :: 0 <= i < j < |r.value| ==> Before(r.value[i], r.value[j]))
  {
    var r := ResolveCandidates(routes, model);
    if r.Ok? {
      var found := Matching(routes, model);
      MatchingMembers(routes, model);
      MatchingIsDistinct(routes, model);
      CompareIsConsistent();
      DistinctIdsDoNotTie(found);
      Sorting.SortRanks(Compare, found);
      Sorting.SortPermutes(Compare, found);
      forall x ensures x in r.value <==> x in found {
        assert x in r.value <==> x in multiset(r.value);
        assert x in found <==> x in multiset(found);
      }
      forall i, j | 0 <= i < j < |r.value| ensures Before(r.value[i], r.value[j]) && r.value[i].id != r.value[j].id {
        var x, y := r.value[i], r.value[j];
        assert x in r.value && y in r.value;
        RankedMeansBefore(x, y, model);
        SameIdSameRoute(routes, x, y);
        CompareIsStrictTotal(x, y, x);
      }
    }
  }

  lemma SameIdSameRoute(routes: seq<Route>, x: Route, y: Route)
    requires DistinctIds(routes) && x in routes && y in routes
    ensures x.id == y.id ==> x == y
  {
    var i :| 0 <= i < |routes| && routes[i] == x;
    var j :| 0 <= j < |routes| && routes[j] == y;
  }

  /** What coming first means, without the comparator. */
  predicate Before(x: Route, y: Route) {
    if IsWildcard(y.model) && !IsWildcard(x.model) then true
    else if IsWildcard(x.model) && IsWildcard(y.model) && |x.model| > |y.model| then true
    else x.model == y.model && (x.priority > y.priority || (x.priority == y.priority && StringLess(x.id, y.id)))
  }

  lemma RankedMeansBefore(x: Route, y: Route, model: string)
    requires IsModelId(model) && IsPattern(x.model) && IsPattern(y.model)
    requires Matches(x.model, model) && Matches(y.model, model)
    ensures Compare(x, y) < 0 <==> Before(x, y)
  {
    if Specificity(x.model) == Specificity(y.model) {
      EqualSpecificityIsOnePattern(x.model, y.model, model);
    }
    assert IsWildcard(x.model) ==> |x.model| <= MAX_MODEL_LENGTH + 1;
  }

  /** The order depends on the set of routes alone, not on how the registry lists them. */
  lemma OrderIsCanonical(routes: seq<Route>, shuffled: seq<Route>, model: string)
    requires DistinctIds(routes) && DistinctIds(shuffled) && multiset(routes) == multiset(shuffled)
    ensures ResolveCandidates(routes, model) == ResolveCandidates(shuffled, model)
  {
    forall r ensures r in routes <==> r in shuffled {
      assert r in routes <==> r in multiset(routes);
      assert r in shuffled <==> r in multiset(shuffled);
    }
    var a, b := Matching(routes, model), Matching(shuffled, model);
    forall r ensures multiset(a)[r] == multiset(b)[r] {
      MatchingCounts(routes, model, r);
      MatchingCounts(shuffled, model, r);
    }
    assert multiset(a) == multiset(b);
    MatchingIsDistinct(routes, model);
    MatchingIsDistinct(shuffled, model);
    DistinctIdsDoNotTie(a);
    DistinctIdsDoNotTie(b);
    CompareIsConsistent();
    Sorting.SortIsCanonical(Compare, a, b);
  }

  /** The most preferred route, or the refusal that no enabled route matches. */
  function SelectRoute(routes: seq<Route>, model: string): Result<Route, SelectError> {
    match ResolveCandidates(routes, model)
    case Err(e) => Err(e)
    case Ok(candidates) => if candidates == [] then Err(NoRoute) else Ok(candidates[0])
  }

  lemma SelectedIsBest(routes: seq<Route>, model: string)
    requires DistinctIds(routes)
    ensures var r := SelectRoute(routes, model);
            && (r.Ok? ==> r.value in routes && r.value.enabled && Matches(r.value.model, model)
                          && forall x :: x in routes && x.enabled && Matches(x.model, model) && x != r.value ==>
                               Before(r.value, x))
            && (r == Err(NoRoute) <==>
                  && ResolveCandidates(routes, model).Ok?
                  && forall x :: x in routes && x.enabled ==> !Matches(x.model, model))
  {
    CandidatesAreRanked(routes, model);
    var r := ResolveCandidates(routes, model);
    if r.Ok? && r.value != [] {
      assert r.value[0] in r.value;
    }
  }
}
