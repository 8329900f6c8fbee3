/** The course catalogue (`src/pages/Academy.tsx`): the published courses,
    narrowed by a case-insensitive title search and a category chip. */
module Academy {
  import opened Common
  import opened Text

  /** The category chips; "All" switches the category test off. */
  const CATEGORIES: seq<string> :=
    ["All", "Personal Finance", "Corporate Finance", "Economics", "Trading", "Investing", "Stock Market"]

  /** A row of `courses`, with the fields the filter reads. */
  datatype CourseRow = CourseRow(id: string, title: string, category: string)

  /** A course is kept when its title contains the search, ignoring case, and
      the chip is "All" or exactly its category. */
  predicate Kept(c: CourseRow, search: string, activeCategory: string): (kept: bool)
    ensures kept ==> activeCategory == "All" || c.category == activeCategory
    ensures search == "" && activeCategory == "All" ==> kept
  {
    EmptySearchMatches(c.title);
    ContainsIgnoringCase(c.title, search) && (activeCategory == "All" || c.category == activeCategory)
  }

  /** `filtered`. */
  function Filtered(courses: seq<CourseRow>, search: string, activeCategory: string): (r: seq<CourseRow>)
    ensures SubsequenceOf(r, courses)
    ensures forall i :: 0 <= i < |r| ==> Kept(r[i], search, activeCategory)
    ensures forall i :: 0 <= i < |courses| && Kept(courses[i], search, activeCategory) ==> courses[i] in r
  {
    FilterIsSubsequence(courses, (c: CourseRow) => Kept(c, search, activeCategory));
    Filter(courses, (c: CourseRow) => Kept(c, search, activeCategory))
  }

  /** With an empty search and "All", every course is listed, in order. */
  lemma EmptySearchKeepsAll(courses: seq<CourseRow>)
    ensures Filtered(courses, "", "All") == courses
  {
    forall i | 0 <= i < |courses| ensures Kept(courses[i], "", "All") {
      EmptySearchMatches(courses[i].title);
    }
    FilterKeepsAllIff(courses, (c: CourseRow) => Kept(c, "", "All"));
  }

  /** Typing more of the search never brings back a course it excluded. */
  lemma LongerSearchKeepsFewer(c: CourseRow, s: string, t: string, activeCategory: string)
    requires Kept(c, s + t, activeCategory)
    ensures Kept(c, s, activeCategory)
  {
    LongerSearchNarrows(c.title, s, t);
  }

  /** The category test is exact: the case of a category matters, unlike the
      search's. */
  lemma CategoryIsExact()
    ensures !Kept(CourseRow("c", "Budgeting", "Personal Finance"), "", "personal finance")
    ensures Kept(CourseRow("c", "Budgeting", "Personal Finance"), "BUDGET", "Personal Finance")
  {
    EmptySearchMatches("Budgeting");
    var lower := ToLower("Budgeting");
    assert lower == "budgeting";
    assert ToLower("BUDGET") == "budget";
    assert StartsWith(lower, "budget");
  }
}
