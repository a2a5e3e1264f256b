/** The pagination state of `PatientController`: the patients the user may
    see, the list currently shown (all of them or a search result), the
    current page, the rows of the table and the state of the page label and
    navigation buttons.  The patients come from `findAllForCurrentUser`,
    which is not part of this model; they are a parameter. */
module Pagination {
  import opened Common
  import opened Entities

  const ITEMS_PER_PAGE: nat := 20

  /** `(int) Math.ceil((double) n / itemsPerPage)`: the fewest pages of 20
      that hold `n` patients. */
  function TotalPages(n: nat): (t: nat)
    ensures t * ITEMS_PER_PAGE >= n
    ensures t > 0 ==> (t - 1) * ITEMS_PER_PAGE < n
    ensures t == 0 <==> n == 0
  {
    (n + ITEMS_PER_PAGE - 1) / ITEMS_PER_PAGE
  }

  /** The page `updateTableWithPagination` settles on from `page`. */
  function ClampPage(page: int, n: nat): (p: int)
    ensures p >= 1
    ensures TotalPages(n) > 0 ==> p <= TotalPages(n)
    ensures 1 <= page && (TotalPages(n) == 0 || page <= TotalPages(n)) ==> p == page
    ensures page > TotalPages(n) > 0 ==> p == TotalPages(n)
  {
    var t := TotalPages(n);
    var q := if page > t && t > 0 then t else page;
    if q < 1 then 1 else q
  }

  function Min(a: int, b: int): int { if a <= b then a else b }

  /** The rows of page `page`: `subList(start, min(start + 20, n))` when
      the page starts inside the list, nothing otherwise. */
  function PageItems(list: seq<Patient>, page: int): (r: seq<Patient>)
    requires page >= 1
    ensures |r| <= ITEMS_PER_PAGE
    ensures |r| == (if (page - 1) * ITEMS_PER_PAGE < |list| then Min(ITEMS_PER_PAGE, |list| - (page - 1) * ITEMS_PER_PAGE) else 0)
    ensures forall i :: 0 <= i < |r| ==> (page - 1) * ITEMS_PER_PAGE + i < |list| && r[i] == list[(page - 1) * ITEMS_PER_PAGE + i]
  {
    var start := (page - 1) * ITEMS_PER_PAGE;
    var end := Min(start + ITEMS_PER_PAGE, |list|);
    if start < |list| then list[start..end] else []
  }

  /** Every patient of the list is shown on exactly one page: the `i`-th on
      page `i / 20 + 1`, at row `i % 20`, and that page exists. */
  lemma PageOf(list: seq<Patient>, i: nat, page: int)
    requires i < |list| && page >= 1
    ensures i / ITEMS_PER_PAGE + 1 <= TotalPages(|list|)
    ensures (page - 1) * ITEMS_PER_PAGE <= i < page * ITEMS_PER_PAGE <==> page == i / ITEMS_PER_PAGE + 1
    ensures page == i / ITEMS_PER_PAGE + 1 ==> PageItems(list, page)[i % ITEMS_PER_PAGE] == list[i]
  {
    var q := i / ITEMS_PER_PAGE;
    assert q * ITEMS_PER_PAGE <= i < (q + 1) * ITEMS_PER_PAGE;
    if page <= q {
      assert page * ITEMS_PER_PAGE <= q * ITEMS_PER_PAGE;
    } else if page > q + 1 {
      assert (page - 1) * ITEMS_PER_PAGE >= (q + 1) * ITEMS_PER_PAGE;
    }
  }

  /** The count `updatePagination` displays: at least one page, even for an
      empty list. */
  function DisplayedPages(n: nat): (d: nat)
    ensures d >= 1
    ensures d == TotalPages(n) || (n == 0 && d == 1)
  {
    if TotalPages(n) == 0 then 1 else TotalPages(n)
  }

  /** Whether the search text finds a patient: its full name, lower-cased,
      contains the lower-cased text, or else its e-mail does, or else its
      telephone contains the text as typed.  A null e-mail or telephone
      reached by these tests throws `NullPointerException`. */
  function SearchHit(p: Patient, text: string): (r: Result<bool>)
    ensures r.Fail? ==> r.exc == NullPointer
  {
    if Contains(ToLower(PatientName(p)), ToLower(text)) then Ok(true)
    else if p.email.None? then Fail(NullPointer)
    else if Contains(ToLower(p.email.value), ToLower(text)) then Ok(true)
    else if p.telephone.None? then Fail(NullPointer)
    else Ok(Contains(p.telephone.value, text))
  }

  /** A patient is found when one of the three fields contains the text,
      each tried only after the previous ones failed; the search throws
      when it reaches a null e-mail, or a null telephone. */
  lemma SearchHitMeaning(p: Patient, text: string)
    ensures SearchHit(p, text) == Ok(true) <==>
      || Contains(ToLower(PatientName(p)), ToLower(text))
      || (p.email.Some? && Contains(ToLower(p.email.value), ToLower(text)))
      || (p.email.Some? && p.telephone.Some? && Contains(p.telephone.value, text))
    ensures SearchHit(p, text).Fail? <==>
      && !Contains(ToLower(PatientName(p)), ToLower(text))
      && (p.email.None? || (!Contains(ToLower(p.email.value), ToLower(text)) && p.telephone.None?))
  {
  }

  /** The patients a search keeps, in their order. */
  function SearchResult(all: seq<Patient>, text: string): seq<Patient> {
    Filter(all, (p: Patient) => SearchHit(p, text) == Ok(true))
  }

  /** The first patient whose test throws, if any. */
  predicate SearchThrows(all: seq<Patient>, text: string) {
    exists i :: 0 <= i < |all| && SearchHit(all[i], text).Fail?
  }

  class PatientController {
    var allPatients: seq<Patient>
    var patientList: seq<Patient>
    var currentPage: int
    /** The rows of `patientTable`. */
    var table: seq<Patient>
    /** The page count of `pageInfoLabel`. */
    var shownPages: int
    var firstDisabled: bool
    var prevDisabled: bool
    var nextDisabled: bool
    var lastDisabled: bool

    /** What the screen shows agrees with the list and the page. */
    ghost predicate Valid()
      reads this
    {
      && currentPage == ClampPage(currentPage, |patientList|)
      && table == PageItems(patientList, currentPage)
      && Shown()
    }

    /** The label and the buttons as `updatePagination` leaves them. */
    ghost predicate Shown()
      reads this
    {
      && shownPages == DisplayedPages(|patientList|)
      && firstDisabled == (currentPage <= 1) && prevDisabled == (currentPage <= 1)
      && nextDisabled == (currentPage >= shownPages) && lastDisabled == (currentPage >= shownPages)
    }

    /** `initialize` then `loadPatients`: the whole list, on page 1. */
    constructor (patients: seq<Patient>)
      ensures Valid()
      ensures allPatients == patients && patientList == patients && currentPage == 1
    {
      allPatients := patients;
      patientList := patients;
      currentPage := 1;
      new;
      UpdateTableWithPagination();
      UpdatePagination();
    }

    /** `updateTableWithPagination`: the page is pulled back into range and
        the table shows its rows. */
    method UpdateTableWithPagination()
      modifies this`currentPage, this`table
      ensures currentPage == ClampPage(old(currentPage), |patientList|)
      ensures table == PageItems(patientList, currentPage)
    {
      var totalItems := |patientList|;
      var totalPages := TotalPages(totalItems);
      if currentPage > totalPages && totalPages > 0 {
        currentPage := totalPages;
      }
      if currentPage < 1 {
        currentPage := 1;
      }
      var startIndex := (currentPage - 1) * ITEMS_PER_PAGE;
      var endIndex := Min(startIndex + ITEMS_PER_PAGE, totalItems);
      if startIndex < totalItems {
        table := patientList[startIndex..endIndex];
      } else {
        table := [];
      }
    }

    /** `updatePagination`: the label shows at least one page; first and
        previous are disabled on page 1, next and last on the last page. */
    method UpdatePagination()
      modifies this`shownPages, this`firstDisabled, this`prevDisabled, this`nextDisabled, this`lastDisabled
      ensures Shown()
    {
      var totalItems := |patientList|;
      var totalPages := TotalPages(totalItems);
      if totalPages == 0 {
        totalPages := 1;
      }
      shownPages := totalPages;
      firstDisabled := currentPage <= 1;
      prevDisabled := currentPage <= 1;
      nextDisabled := currentPage >= totalPages;
      lastDisabled := currentPage >= totalPages;
    }

    method HandleFirstPage()
      requires Valid()
      modifies this
      ensures Valid() && currentPage == 1
      ensures patientList == old(patientList) && allPatients == old(allPatients)
    {
      currentPage := 1;
      UpdateTableWithPagination();
      UpdatePagination();
    }

    method HandlePrevPage()
      requires Valid()
      modifies this
      ensures Valid()
      ensures currentPage == (if old(currentPage) > 1 then old(currentPage) - 1 else old(currentPage))
      ensures patientList == old(patientList) && allPatients == old(allPatients)
    {
      if currentPage > 1 {
        currentPage := currentPage - 1;
        UpdateTableWithPagination();
        UpdatePagination();
      }
    }

    method HandleNextPage()
      requires Valid()
      modifies this
      ensures Valid()
      ensures currentPage == (if old(currentPage) < TotalPages(|patientList|) then old(currentPage) + 1 else old(currentPage))
      ensures patientList == old(patientList) && allPatients == old(allPatients)
    {
      var totalPages := TotalPages(|patientList|);
      if currentPage < totalPages {
        currentPage := currentPage + 1;
        UpdateTableWithPagination();
        UpdatePagination();
      }
    }

    method HandleLastPage()
      requires Valid()
      modifies this
      ensures Valid()
      ensures currentPage == DisplayedPages(|patientList|)
      ensures patientList == old(patientList) && allPatients == old(allPatients)
    {
      var totalPages := TotalPages(|patientList|);
      currentPage := if totalPages >= 1 then totalPages else 1;
      UpdateTableWithPagination();
      UpdatePagination();
    }

    /** `filterPatients`: a null or empty text restores the whole list;
        otherwise the list becomes the patients the text finds.  Either way
        the view goes back to page 1.  When a test throws, the exception
        leaves the list and the page as they were. */
    method FilterPatients(searchText: Option<string>) returns (r: Outcome)
      requires Valid()
      modifies this
      ensures Valid() && allPatients == old(allPatients)
      ensures r.Thrown? <==> searchText.Some? && searchText.value != [] && SearchThrows(allPatients, searchText.value)
      ensures r.Thrown? ==> r.exc == NullPointer && patientList == old(patientList) && currentPage == old(currentPage)
      ensures r == Done ==> currentPage == 1
      ensures r == Done && (searchText.None? || searchText.value == []) ==> patientList == allPatients
      ensures r == Done && searchText.Some? && searchText.value != [] ==> patientList == SearchResult(allPatients, searchText.value)
    {
      if searchText.None? || searchText.value == [] {
        patientList := allPatients;
      } else {
        var filtered;
        r, filtered := SearchAll(allPatients, searchText.value);
        if r.Thrown? {
          return;
        }
        patientList := filtered;
      }
      currentPage := 1;
      UpdateTableWithPagination();
      UpdatePagination();
      return Done;
    }
  }

  /** One more patient extends the search result by that patient when the
      text finds it. */
  lemma SearchResultStep(all: seq<Patient>, i: nat, text: string)
    requires i < |all|
    ensures SearchResult(all[..i + 1], text) ==
      SearchResult(all[..i], text) + (if SearchHit(all[i], text) == Ok(true) then [all[i]] else [])
  {
    FilterPrefixStep(all, i, (p: Patient) => SearchHit(p, text) == Ok(true));
  }

  /** The loop of `filterPatients` over the patients. */
  method SearchAll(all: seq<Patient>, text: string) returns (r: Outcome, filtered: seq<Patient>)
    ensures r.Thrown? <==> SearchThrows(all, text)
    ensures r.Thrown? ==> r.exc == NullPointer
    ensures r == Done ==> filtered == SearchResult(all, text)
  {
    filtered := [];
    for i := 0 to |all|
      invariant filtered == SearchResult(all[..i], text)
      invariant forall j :: 0 <= j < i ==> SearchHit(all[j], text).Ok?
    {
      var h := SearchHit(all[i], text);
      if h.Fail? {
        return Thrown(h.exc), [];
      }
      SearchResultStep(all, i, text);
      if h.value {
        filtered := filtered + [all[i]];
      }
    }
    assert all[..|all|] == all;
    return Done, filtered;
  }

  /** The buttons say what the handlers do: next and last are disabled
      exactly when `handleNextPage` would stay on the current page, and
      first and previous exactly when `handlePrevPage` would. */
  lemma DisabledIffStuck(currentPage: int, n: nat)
    requires currentPage == ClampPage(currentPage, n)
    ensures (currentPage >= DisplayedPages(n)) <==> !(currentPage < TotalPages(n))
    ensures (currentPage <= 1) <==> !(currentPage > 1)
  {
  }

  /** A search keeps only patients of the list, and each patient the text
      finds is kept. */
  lemma SearchResultSound(all: seq<Patient>, text: string)
    ensures forall i :: 0 <= i < |SearchResult(all, text)| ==>
      SearchResult(all, text)[i] in all && SearchHit(SearchResult(all, text)[i], text) == Ok(true)
    ensures forall i :: 0 <= i < |all| && SearchHit(all[i], text) == Ok(true) ==> all[i] in SearchResult(all, text)
    ensures |SearchResult(all, text)| <= |all|
  {
  }
}
