/**
 * The projects page: the catalogue filter (a case-insensitive search over
 * title, description and tech tags, combined with a category choice), the
 * tech-badge truncation of each card, and the "Clear Filters" reset.
 */
module ProjectsPage {
  import opened Wrappers

  datatype Project = Project(
    id: int, title: string, description: string, longDescription: string,
    category: string, techStack: seq<string>, githubUrl: string, demoUrl: string)

  /** The two pieces of UI state the filter depends on. */
  datatype FilterState = FilterState(searchTerm: string, selectedCategory: string)

  const AllCategory := "All"

  // ---------------------------------------------------------------------
  // Strings: lower-casing and substring search

  /** `toLowerCase` on one character, restricted to ASCII letters. */
  function LowerChar(c: char): char
  {
    if 'A' <= c <= 'Z' then (c as int + 32) as char else c
  }

  function ToLower(s: string): (r: string)
    ensures |r| == |s| && forall i :: 0 <= i < |s| ==> r[i] == LowerChar(s[i])
  {
    seq(|s|, i requires 0 <= i < |s| => LowerChar(s[i]))
  }

  /** `hay.includes(needle)`, searching from the front. */
  function Contains(hay: string, needle: string): bool
    decreases |hay|
  {
    if |needle| > |hay| then false
    else if hay[..|needle|] == needle then true
    else Contains(hay[1..], needle)
  }

  /** `needle` occurs in `hay` starting at position `i`. */
  predicate OccursAt(hay: string, needle: string, i: int)
  {
    0 <= i <= |hay| - |needle| && hay[i..i + |needle|] == needle
  }

  /** `Contains` finds `needle` exactly when it occurs at some position of `hay`. */
  lemma {:induction false} ContainsIff(hay: string, needle: string)
    ensures Contains(hay, needle) <==> exists i :: OccursAt(hay, needle, i)
    decreases |hay|
  {
    var n := |needle|;
    if n > |hay| {
    } else if hay[..n] == needle {
      assert OccursAt(hay, needle, 0);
    } else {
      ContainsIff(hay[1..], needle);
      forall i | 0 <= i <= |hay| - 1 - n
        ensures OccursAt(hay[1..], needle, i) <==> OccursAt(hay, needle, i + 1)
      {
        assert hay[1..][i..i + n] == hay[i + 1..i + 1 + n];
      }
      if Contains(hay, needle) {
        var i :| OccursAt(hay[1..], needle, i);
        assert OccursAt(hay, needle, i + 1);
      }
      if exists i :: OccursAt(hay, needle, i) {
        var i :| OccursAt(hay, needle, i);
        assert i != 0;
        assert OccursAt(hay[1..], needle, i - 1);
      }
    }
  }

  lemma ContainsEmpty(hay: string)
    ensures Contains(hay, "")
  {
  }

  lemma LowerIdempotent(s: string)
    ensures ToLower(ToLower(s)) == ToLower(s)
  {
  }

  // ---------------------------------------------------------------------
  // The filter, lines 88-98

  predicate MatchesSearch(p: Project, searchTerm: string)
  {
    var term := ToLower(searchTerm);
    || Contains(ToLower(p.title), term)
    || Contains(ToLower(p.description), term)
    || exists k :: 0 <= k < |p.techStack| && Contains(ToLower(p.techStack[k]), term)
  }

  predicate MatchesCategory(p: Project, selectedCategory: string)
  {
    selectedCategory == AllCategory || p.category == selectedCategory
  }

  predicate Keep(p: Project, f: FilterState)
  {
    MatchesSearch(p, f.searchTerm) && MatchesCategory(p, f.selectedCategory)
  }

  /** `projects.filter(project => matchesSearch && matchesCategory)` */
  function FilterProjects(projects: seq<Project>, f: FilterState): seq<Project>
    decreases |projects|
  {
    if |projects| == 0 then []
    else (if Keep(projects[0], f) then [projects[0]] else []) + FilterProjects(projects[1..], f)
  }

  /** `a` is `b` with some elements left out, the rest in their order. */
  predicate IsSubsequence<T(==)>(a: seq<T>, b: seq<T>)
    decreases |b|
  {
    if |a| == 0 then true
    else if |b| == 0 then false
    else (a[0] == b[0] && IsSubsequence(a[1..], b[1..])) || IsSubsequence(a, b[1..])
  }

  /** The filtered list keeps the catalogue's order. */
  lemma {:induction false} FilterIsSubsequence(projects: seq<Project>, f: FilterState)
    ensures IsSubsequence(FilterProjects(projects, f), projects)
    decreases |projects|
  {
    if |projects| > 0 {
      var r := FilterProjects(projects, f);
      FilterIsSubsequence(projects[1..], f);
      if Keep(projects[0], f) {
        assert r[0] == projects[0] && r[1..] == FilterProjects(projects[1..], f);
      } else {
        assert r == FilterProjects(projects[1..], f);
      }
    }
  }

  /** A project is shown exactly when it matches the search and the category. */
  lemma {:induction false} FilterMembers(projects: seq<Project>, f: FilterState, p: Project)
    ensures p in FilterProjects(projects, f) <==> p in projects && Keep(p, f)
    decreases |projects|
  {
    if |projects| > 0 {
      FilterMembers(projects[1..], f, p);
      assert projects == [projects[0]] + projects[1..];
    }
  }

  /** The empty search with category "All" shows everything, in order. */
  lemma {:induction false} EmptyFilterKeepsAll(projects: seq<Project>)
    ensures FilterProjects(projects, FilterState("", AllCategory)) == projects
    decreases |projects|
  {
    if |projects| > 0 {
      ContainsEmpty(ToLower(projects[0].title));
      assert ToLower("") == "";
      EmptyFilterKeepsAll(projects[1..]);
      assert projects == [projects[0]] + projects[1..];
    }
  }

  /** With a specific category chosen, every shown project has exactly that category. */
  lemma CategoryFilterExact(projects: seq<Project>, f: FilterState)
    requires f.selectedCategory != AllCategory
    ensures forall p :: p in FilterProjects(projects, f) ==> p.category == f.selectedCategory
  {
    forall p | p in FilterProjects(projects, f) ensures p.category == f.selectedCategory {
      FilterMembers(projects, f, p);
    }
  }

  /** Search terms that agree after lower-casing ("PyThOn", "python") filter alike. */
  lemma {:induction false} SearchIgnoresCase(projects: seq<Project>, t1: string, t2: string, category: string)
    requires ToLower(t1) == ToLower(t2)
    ensures FilterProjects(projects, FilterState(t1, category)) == FilterProjects(projects, FilterState(t2, category))
    decreases |projects|
  {
    if |projects| > 0 {
      SearchIgnoresCase(projects[1..], t1, t2, category);
    }
  }

  /** In particular a term and its lower-cased form filter alike. */
  lemma SearchSameAsLowered(projects: seq<Project>, term: string, category: string)
    ensures FilterProjects(projects, FilterState(term, category)) == FilterProjects(projects, FilterState(ToLower(term), category))
  {
    LowerIdempotent(term);
    SearchIgnoresCase(projects, term, ToLower(term), category);
  }

  // ---------------------------------------------------------------------
  // The "Clear Filters" button and the badges

  /** `setSearchTerm(''); setSelectedCategory('All')` */
  function ClearFilters(): FilterState
  {
    FilterState("", AllCategory)
  }

  /** After "Clear Filters" the whole catalogue is shown again. */
  lemma ClearFiltersShowsAll(projects: seq<Project>)
    ensures FilterProjects(projects, ClearFilters()) == projects
  {
    EmptyFilterKeepsAll(projects);
  }

  /** The badges of one card: the tags shown, and the count on the `+N` badge when there is one. */
  datatype BadgeRow = BadgeRow(shown: seq<string>, more: Option<nat>)

  /** `techStack.slice(0, 3)` and `techStack.length > 3 && +{techStack.length - 3}` */
  function Badges(techStack: seq<string>): (r: BadgeRow)
    ensures r.shown <= techStack
    ensures |r.shown| == if |techStack| < 3 then |techStack| else 3
    ensures r.more.Some? <==> |techStack| > 3
    ensures r.more.Some? ==> |r.shown| + r.more.value == |techStack|
  {
    var n := |techStack|;
    BadgeRow(techStack[..if n < 3 then n else 3], if n > 3 then Some(n - 3) else None)
  }
}
