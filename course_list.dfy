/** The course catalogue page (src/Components/CourseList.js): fetched courses
    with shortened titles and descriptions, a case-insensitive title search
    combined with a category filter, a first window of eight cards and a
    "Load More" button that appends four more. */
module CourseCatalog {
  import Text
  import Seqs

  datatype Course = Course(id: int, title: string, description: string, category: string, image: string, price: int)

  /** Cards shown before "Load More" is pressed. */
  const FirstWindow: nat := 8
  /** Cards added by one press of "Load More". */
  const LoadStep: nat := 4

  /** The catalogue's shortened card text: titles over 20 characters keep 20
      and gain "...", descriptions over 35 keep 35 and gain "....". */
  function Shorten(c: Course): (r: Course)
    ensures |r.title| <= 23 && |r.description| <= 39
    ensures |c.title| <= 20 ==> r.title == c.title
    ensures |c.title| > 20 ==> r.title == c.title[..20] + "..."
    ensures |c.description| <= 35 ==> r.description == c.description
    ensures |c.description| > 35 ==> r.description == c.description[..35] + "...."
    ensures r.id == c.id && r.category == c.category && r.image == c.image && r.price == c.price
  {
    c.(title := Text.Truncate(c.title, 20, "..."), description := Text.Truncate(c.description, 35, "...."))
  }

  /** `response.data.map(...)` with `Shorten` on every course. */
  function ShortenAll(raw: seq<Course>): (r: seq<Course>)
    ensures |r| == |raw|
    ensures forall i :: 0 <= i < |r| ==> r[i] == Shorten(raw[i])
  {
    seq(|raw|, i requires 0 <= i < |raw| => Shorten(raw[i]))
  }

  datatype CategoryFilter = AllCategories | Category(name: string)

  /** The search-and-filter test: the lower-cased title contains the
      lower-cased term, and the filter is "all" or names the course's category. */
  predicate Matches(term: string, filter: CategoryFilter, c: Course)
  {
    && Text.Contains(Text.Lower(c.title), Text.Lower(term))
    && (filter == AllCategories || filter == Category(c.category))
  }

  /** The empty search term with the "all" filter keeps every course. */
  lemma EmptySearchKeepsAll(c: Course)
    ensures Matches("", AllCategories, c)
  {
    Text.EmptyIsContained(Text.Lower(c.title));
  }

  /** The search ignores the ASCII case of the term. */
  lemma SearchIgnoresCase(term: string, filter: CategoryFilter, c: Course)
    ensures Matches(term, filter, c) == Matches(Text.Lower(term), filter, c)
  {
    Text.LowerIdempotent(term);
  }

  /** The filtering effect's list: `filtered.slice(0, 8)`. */
  function Window(courses: seq<Course>, term: string, filter: CategoryFilter): (r: seq<Course>)
    ensures var filtered := Seqs.Filter(c => Matches(term, filter, c), courses);
      r == filtered[..Seqs.Min(FirstWindow, |filtered|)]
  {
    Seqs.Slice(Seqs.Filter(c => Matches(term, filter, c), courses), 0, FirstWindow)
  }

  /** The window holds at most eight courses, each in the catalogue and
      matching the search, in catalogue order. */
  lemma WindowSpec(courses: seq<Course>, term: string, filter: CategoryFilter)
    ensures var r := Window(courses, term, filter);
      && |r| <= FirstWindow
      && (forall c :: c in r ==> c in courses && Matches(term, filter, c))
      && Seqs.IsSubsequence(r, courses)
  {
    var keep := c => Matches(term, filter, c);
    var filtered := Seqs.Filter(keep, courses);
    var r := Window(courses, term, filter);
    forall c | c in r ensures c in courses && Matches(term, filter, c) {
      Seqs.FilterMembership(keep, courses, c);
    }
    Seqs.FilterIsSubsequence(keep, courses);
    Seqs.PrefixIsSubsequence(r, filtered);
    Seqs.SubsequenceTransitive(r, filtered, courses);
  }

  /** `loadMoreCourses`: the current cards followed by the next (up to) four
      courses of the whole catalogue, counted from the number of cards shown. */
  function LoadMore(visible: seq<Course>, courses: seq<Course>): (r: seq<Course>)
    ensures |visible| <= |r| <= |visible| + LoadStep
    ensures r[..|visible|] == visible
    ensures |r| > |visible| ==> |r| <= |courses|
    ensures forall i :: |visible| <= i < |r| ==> r[i] == courses[i]
    ensures |visible| <= |courses| ==> |r| == |visible| + Seqs.Min(LoadStep, |courses| - |visible|)
    ensures |visible| >= |courses| ==> r == visible
  {
    visible + Seqs.Slice(courses, |visible|, |visible| + LoadStep)
  }

  /** While the button is shown, a press adds at least one card and never
      shows more cards than the catalogue holds. */
  lemma LoadMoreProgress(visible: seq<Course>, courses: seq<Course>)
    requires |visible| < |courses|
    ensures |visible| < |LoadMore(visible, courses)| <= |courses|
  {
  }

  /** Paging the unfiltered catalogue: a window that is a prefix of the
      catalogue stays a prefix, four courses longer. */
  lemma LoadMoreExtendsPrefix(courses: seq<Course>, k: nat)
    requires k <= |courses|
    ensures LoadMore(courses[..k], courses) == courses[..Seqs.Min(k + LoadStep, |courses|)]
  {
  }

  /** The appended courses are taken from the whole catalogue, so a press
      after filtering can add a course that does not match the filter. */
  lemma LoadMoreIgnoresFilter()
    ensures var dev := Course(1, "Go", "", "Development", "", 0);
      var art := Course(2, "Art", "", "Design", "", 0);
      var courses := [dev, art];
      var visible := Window(courses, "", Category("Design"));
      visible == [art] && LoadMore(visible, courses) == [art, art]
  {
    var dev := Course(1, "Go", "", "Development", "", 0);
    var art := Course(2, "Art", "", "Design", "", 0);
    var keep := c => Matches("", Category("Design"), c);
    EmptySearchKeepsAll(dev);
    EmptySearchKeepsAll(art);
    Text.EmptyIsContained(Text.Lower(art.title));
    assert Seqs.Filter(keep, [art]) == [art];
    assert Seqs.Filter(keep, [dev, art]) == Seqs.Filter(keep, [art]);
  }

  /** The page's state. */
  class Page {
    var courses: seq<Course>
    var visibleCourses: seq<Course>
    var searchTerm: string
    var filter: CategoryFilter

    constructor ()
      ensures courses == [] && visibleCourses == [] && searchTerm == "" && filter == AllCategories
    {
      courses := [];
      visibleCourses := [];
      searchTerm := "";
      filter := AllCategories;
    }

    /** "Load More" is offered while fewer cards are shown than courses exist. */
    predicate ShowLoadMore()
      reads this
    {
      |visibleCourses| < |courses|
    }

    /** The fetch succeeded: keep the shortened courses, and show the first
        eight courses of the response as received, not shortened. */
    method Fetched(raw: seq<Course>)
      modifies this`courses, this`visibleCourses
      ensures courses == ShortenAll(raw)
      ensures visibleCourses == raw[..Seqs.Min(FirstWindow, |raw|)]
    {
      courses := ShortenAll(raw);
      visibleCourses := Seqs.Slice(raw, 0, FirstWindow);
    }

    /** The fetch followed by the render it causes: the courses changed, so
        the filter effect runs and the first response window is replaced by
        the window over the shortened courses. */
    method FetchedAndFiltered(raw: seq<Course>)
      modifies this`courses, this`visibleCourses
      ensures courses == ShortenAll(raw)
      ensures visibleCourses == Window(ShortenAll(raw), searchTerm, filter)
    {
      Fetched(raw);
      FilterEffect();
    }

    /** The effect run after the term, the filter or the courses change. */
    method FilterEffect()
      modifies this`visibleCourses
      ensures visibleCourses == Window(courses, searchTerm, filter)
    {
      var term, f := searchTerm, filter;
      var filtered := Seqs.Filter(c => Matches(term, f, c), courses);
      visibleCourses := Seqs.Slice(filtered, 0, FirstWindow);
    }

    method SetSearchTerm(term: string)
      modifies this`searchTerm, this`visibleCourses
      ensures searchTerm == term && filter == old(filter) && courses == old(courses)
      ensures visibleCourses == Window(courses, term, filter)
    {
      searchTerm := term;
      FilterEffect();
    }

    method SetFilter(f: CategoryFilter)
      modifies this`filter, this`visibleCourses
      ensures filter == f && searchTerm == old(searchTerm) && courses == old(courses)
      ensures visibleCourses == Window(courses, searchTerm, f)
    {
      filter := f;
      FilterEffect();
    }

    method LoadMoreCourses()
      modifies this`visibleCourses
      ensures visibleCourses == LoadMore(old(visibleCourses), courses)
      ensures old(ShowLoadMore()) ==> |old(visibleCourses)| < |visibleCourses| <= |courses|
    {
      var currentLength := |visibleCourses|;
      var nextCourses := Seqs.Slice(courses, currentLength, currentLength + LoadStep);
      visibleCourses := visibleCourses + nextCourses;
    }
  }
}
