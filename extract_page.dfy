/** The public-data browser of `src/pages/ExtractPage.jsx`: the filter for
    complete experiments, the case-insensitive search, and the pager that shows
    five experiments at a time. */
module ExtractPage {
  import opened Text
  import opened Seqs

  /** A public experiment as the list shows it; a missing field is `""`. */
  datatype Experiment = Experiment(id: string, title: string, description: string, authorName: string)

  const ItemsPerPage := 5

  predicate IsComplete(e: Experiment)
  {
    e.title != "" && e.description != "" && e.authorName != ""
  }

  /** The query's `.filter(exp => exp.title && exp.description && exp.authorName)`. */
  function Complete(docs: seq<Experiment>): (r: seq<Experiment>)
    ensures forall e :: e in r <==> e in docs && IsComplete(e)
  {
    Filter(docs, IsComplete)
  }

  /** One experiment matches when its title, description or author contains
      the term, ignoring case. */
  predicate Matches(e: Experiment, term: string)
  {
    || Contains(Lower(e.title), Lower(term))
    || Contains(Lower(e.description), Lower(term))
    || Contains(Lower(e.authorName), Lower(term))
  }

  /** `filteredExperiments`. */
  function Search(experiments: seq<Experiment>, term: string): (r: seq<Experiment>)
    ensures forall e :: e in r <==> e in experiments && Matches(e, term)
  {
    Filter(experiments, (e: Experiment) => Matches(e, term))
  }

  /** The empty term keeps every experiment, in order. */
  lemma EmptySearchKeepsAll(experiments: seq<Experiment>)
    ensures Search(experiments, "") == experiments
  {
    forall e | e in experiments ensures Matches(e, "") {
      assert StartsWith(Lower(e.title), Lower(""));
    }
    FilterAll(experiments, (e: Experiment) => Matches(e, ""));
  }

  /** `Math.ceil(count / ITEMS_PER_PAGE)`. */
  function TotalPages(count: nat): (t: nat)
    ensures t * ItemsPerPage >= count
    ensures t > 0 ==> (t - 1) * ItemsPerPage < count
  {
    (count + ItemsPerPage - 1) / ItemsPerPage
  }

  /** One index of `Array.prototype.slice`: a negative index counts from the
      end, and both are clamped to the length. */
  function SliceIndex(i: int, len: nat): (k: nat)
    ensures k <= len
  {
    if i < 0 then (if len + i < 0 then 0 else len + i) else if i > len then len else i
  }

  /** `s.slice(start, end)`. */
  function Slice<T>(s: seq<T>, start: int, end: int): (r: seq<T>)
    ensures 0 <= start <= end ==> r == s[SliceIndex(start, |s|)..SliceIndex(end, |s|)]
  {
    var a := SliceIndex(start, |s|);
    var b := SliceIndex(end, |s|);
    if a < b then s[a..b] else []
  }

  /** `currentExperiments` for page `p`. */
  function Page<T>(filtered: seq<T>, p: int): seq<T>
  {
    Slice(filtered, (p - 1) * ItemsPerPage, p * ItemsPerPage)
  }

  /** A page within range holds its five (or, last, fewer) items in order, and
      is never empty. */
  lemma PageContents<T>(filtered: seq<T>, p: int)
    requires 1 <= p <= TotalPages(|filtered|)
    ensures var lo := (p - 1) * ItemsPerPage;
      var hi := if p * ItemsPerPage <= |filtered| then p * ItemsPerPage else |filtered|;
      && lo < hi && hi - lo <= ItemsPerPage
      && Page(filtered, p) == filtered[lo..hi]
  {
  }

  /** A page past the last is empty. */
  lemma PagePastEnd<T>(filtered: seq<T>, p: int)
    requires p > TotalPages(|filtered|)
    ensures Page(filtered, p) == []
  {
  }

  /** Pages 1 to `k`, one after the other. */
  function FirstPages<T>(filtered: seq<T>, k: nat): seq<T>
  {
    if k == 0 then [] else FirstPages(filtered, k - 1) + Page(filtered, k)
  }

  /** Paging through every page shows the filtered list exactly once, in order. */
  lemma {:induction false} PagesCoverFiltered<T>(filtered: seq<T>)
    ensures FirstPages(filtered, TotalPages(|filtered|)) == filtered
  {
    var t := TotalPages(|filtered|);
    FirstPagesPrefix(filtered, t);
    assert filtered[..|filtered|] == filtered;
  }

  lemma {:induction false} FirstPagesPrefix<T>(filtered: seq<T>, k: nat)
    ensures FirstPages(filtered, k) ==
      filtered[..if k * ItemsPerPage <= |filtered| then k * ItemsPerPage else |filtered|]
  {
    if k > 0 {
      FirstPagesPrefix(filtered, k - 1);
      var lo := if (k - 1) * ItemsPerPage <= |filtered| then (k - 1) * ItemsPerPage else |filtered|;
      var hi := if k * ItemsPerPage <= |filtered| then k * ItemsPerPage else |filtered|;
      assert Page(filtered, k) == filtered[lo..hi];
      assert filtered[..lo] + filtered[lo..hi] == filtered[..hi];
    }
  }

  /** The page's state: the loaded experiments, the search term and the page. */
  class ExtractView {
    const experiments: seq<Experiment>
    var searchTerm: string
    var currentPage: int

    function Filtered(): seq<Experiment>
      reads this
    {
      Search(experiments, searchTerm)
    }

    function Total(): nat
      reads this
    {
      TotalPages(|Filtered()|)
    }

    function CurrentExperiments(): seq<Experiment>
      reads this
    {
      Page(Filtered(), currentPage)
    }

    /** The page is one that exists (page 1 when there are none). */
    predicate InRange()
      reads this
    {
      1 <= currentPage && (currentPage == 1 || currentPage <= Total())
    }

    /** The pager is rendered only with more than one page. */
    predicate ShowPager()
      reads this
    {
      Total() > 1
    }

    predicate PreviousDisabled()
      reads this
    {
      currentPage == 1
    }

    predicate NextDisabled()
      reads this
    {
      currentPage == Total()
    }

    /** The query's result arrives: only complete experiments are kept; the
        search is empty and the page is 1. */
    constructor (docs: seq<Experiment>)
      ensures experiments == Complete(docs) && searchTerm == "" && currentPage == 1
      ensures InRange() && Filtered() == experiments
    {
      experiments := Complete(docs);
      searchTerm := "";
      currentPage := 1;
      new;
      EmptySearchKeepsAll(experiments);
    }

    /** `handleNextPage`. */
    method NextPage()
      modifies this
      ensures currentPage == if old(currentPage) + 1 <= Total() then old(currentPage) + 1 else Total()
      ensures searchTerm == old(searchTerm)
      ensures old(InRange()) && Total() >= 1 ==> InRange()
      ensures old(ShowPager()) && old(InRange()) && !old(NextDisabled()) ==> currentPage == old(currentPage) + 1
    {
      currentPage := if currentPage + 1 <= Total() then currentPage + 1 else Total();
    }

    /** `handlePrevPage`. */
    method PrevPage()
      modifies this
      ensures currentPage == if old(currentPage) - 1 >= 1 then old(currentPage) - 1 else 1
      ensures searchTerm == old(searchTerm)
      ensures old(InRange()) ==> InRange()
      ensures !old(PreviousDisabled()) && old(currentPage) >= 1 ==> currentPage == old(currentPage) - 1
    {
      currentPage := if currentPage - 1 >= 1 then currentPage - 1 else 1;
    }

    /** The search box's `onChange`: a new term and page 1. */
    method SetSearchTerm(term: string)
      modifies this
      ensures searchTerm == term && currentPage == 1
      ensures InRange()
    {
      searchTerm := term;
      currentPage := 1;
    }
  }
}
