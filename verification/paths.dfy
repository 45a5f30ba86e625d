/** The two pure passes over the list of project paths: the display filter
    (read_and_filter_files) and the router classifier (detect_router_type). */
module Paths {
  import opened Text

  /** A path is shown unless it ends in ".css" or ".json" (case-sensitive). */
  predicate Displayed(path: string) {
    !EndsWith(path, ".css") && !EndsWith(path, ".json")
  }

  /** read_and_filter_files: the displayed paths, in their original order, duplicates kept. */
  function FilterPaths(paths: seq<string>): (r: seq<string>)
    ensures forall i :: 0 <= i < |r| ==> Displayed(r[i])
    ensures |r| <= |paths|
  {
    if paths == [] then []
    else if Displayed(paths[0]) then [paths[0]] + FilterPaths(paths[1..])
    else FilterPaths(paths[1..])
  }

  /** Every displayed path is kept as many times as it occurs, every other path is dropped. */
  lemma {:induction false} FilterCounts(paths: seq<string>)
    ensures forall p :: multiset(FilterPaths(paths))[p] == if Displayed(p) then multiset(paths)[p] else 0
    ensures forall p :: p in FilterPaths(paths) <==> p in paths && Displayed(p)
    decreases |paths|
  {
    if paths != [] {
      FilterCounts(paths[1..]);
      assert paths == [paths[0]] + paths[1..];
      assert multiset(paths) == multiset{paths[0]} + multiset(paths[1..]);
    }
  }

  /** Filtering a concatenation filters each part in place: the kept paths keep their relative order. */
  lemma {:induction false} FilterAppend(a: seq<string>, b: seq<string>)
    ensures FilterPaths(a + b) == FilterPaths(a) + FilterPaths(b)
    decreases |a|
  {
    if a != [] {
      var ab := a + b;
      assert ab[0] == a[0] && ab[1..] == a[1..] + b;
      FilterAppend(a[1..], b);
      var tail := FilterPaths(a[1..]) + FilterPaths(b);
      if Displayed(a[0]) {
        calc {
          FilterPaths(ab);
          [a[0]] + FilterPaths(ab[1..]);
          [a[0]] + tail;
          FilterPaths(a) + FilterPaths(b);
        }
      } else {
        calc {
          FilterPaths(ab);
          FilterPaths(ab[1..]);
          tail;
          FilterPaths(a) + FilterPaths(b);
        }
      }
    } else {
      assert a + b == b;
    }
  }

  /** A list whose every path is displayed is left as it is. */
  lemma {:induction false} FilterKeepsDisplayed(paths: seq<string>)
    requires forall i :: 0 <= i < |paths| ==> Displayed(paths[i])
    ensures FilterPaths(paths) == paths
    decreases |paths|
  {
    if paths != [] {
      FilterKeepsDisplayed(paths[1..]);
    }
  }

  /** Filtering twice gives the same list as filtering once. */
  lemma {:induction false} FilterIdempotent(paths: seq<string>)
    ensures FilterPaths(FilterPaths(paths)) == FilterPaths(paths)
  {
    FilterKeepsDisplayed(FilterPaths(paths));
  }

  const AppRouter := "app-router"
  const PagesRouter := "pages-router"
  const React := "react"

  /** Some path of the list has `sub` as a substring. */
  ghost predicate SomePathHas(paths: seq<string>, sub: string) {
    exists i :: 0 <= i < |paths| && Occurs(sub, paths[i])
  }

  /** Python's `any(sub in path for path in paths)`, scanning the list from the front. */
  function AnyContains(paths: seq<string>, sub: string): (r: bool)
    ensures r <==> SomePathHas(paths, sub)
  {
    if paths == [] then false
    else
      assert forall i :: 0 < i < |paths| ==> paths[i] == paths[1..][i - 1];
      Contains(paths[0], sub) || AnyContains(paths[1..], sub)
  }

  /** detect_router_type: "/app/" anywhere in the list wins over "/pages/" anywhere; otherwise "react". */
  function DetectRouterType(paths: seq<string>): (r: string)
    ensures r == AppRouter <==> SomePathHas(paths, "/app/")
    ensures r == PagesRouter <==> !SomePathHas(paths, "/app/") && SomePathHas(paths, "/pages/")
    ensures r == React <==> !SomePathHas(paths, "/app/") && !SomePathHas(paths, "/pages/")
  {
    if AnyContains(paths, "/app/") then AppRouter
    else if AnyContains(paths, "/pages/") then PagesRouter
    else React
  }

  /** The label depends only on which paths occur, not on their order or repetition. */
  lemma RouterTypeIgnoresOrder(a: seq<string>, b: seq<string>)
    requires forall p :: p in a <==> p in b
    ensures DetectRouterType(a) == DetectRouterType(b)
  {
    forall sub | sub == "/app/" || sub == "/pages/"
      ensures SomePathHas(a, sub) <==> SomePathHas(b, sub)
    {
      SomePathHasIsMembership(a, b, sub);
      SomePathHasIsMembership(b, a, sub);
    }
  }

  /** Every path of a is a path of b, so a substring found in a is found in b. */
  lemma SomePathHasIsMembership(a: seq<string>, b: seq<string>, sub: string)
    requires forall p :: p in a ==> p in b
    ensures SomePathHas(a, sub) ==> SomePathHas(b, sub)
  {
    if SomePathHas(a, sub) {
      var i :| 0 <= i < |a| && Occurs(sub, a[i]);
      assert a[i] in b;
      var j :| 0 <= j < |b| && b[j] == a[i];
    }
  }
}
