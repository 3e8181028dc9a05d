/** The AddStudentsToClassroom screen: a paged list of the school's
    students, each tagged with whether it is already in the class, and the
    selection that is sent to the class. */
module AddStudentsToClassroom {
  import opened Outcomes
  import opened Seqs
  import opened Decimal
  import opened JsString
  import opened Session
  import opened Roster
  import opened ApiHelpers

  /** Page size: `useState(20)`, never changed. */
  const Limit: nat := 20

  /** A listed student: `{...student, inClass}`. */
  datatype Candidate = Candidate(student: Student, inClass: bool)

  /** `toggleStudentSelection(id)`: a selected id is removed (every copy of
      it), any other id is appended. */
  function ToggleSelection(selected: seq<string>, id: string): (r: seq<string>)
    ensures id in selected ==> id !in r && forall x :: x in r <==> x in selected && x != id
    ensures id !in selected ==> r == selected + [id]
  {
    if id in selected then Filter(selected, (x: string) => x != id) else selected + [id]
  }

  /** Selecting an unselected id and toggling it again restores the list. */
  lemma ToggleSelectionTwice(selected: seq<string>, id: string)
    requires id !in selected
    ensures ToggleSelection(ToggleSelection(selected, id), id) == selected
  {
    var keep := (x: string) => x != id;
    FilterConcat(selected, [id], keep);
    FilterKeepsAll(selected, keep);
    assert Filter([id], keep) == [];
  }

  /** Deselecting an id held once, wherever it sits, leaves the other
      selected ids in their order. */
  lemma DeselectKeepsOrder(before: seq<string>, id: string, after: seq<string>)
    requires id !in before && id !in after
    ensures ToggleSelection(before + [id] + after, id) == before + after
  {
    var keep := (x: string) => x != id;
    assert (before + [id] + after)[|before|] == id;
    assert forall i :: 0 <= i < |before| ==> keep(before[i]);
    assert forall i :: 0 <= i < |after| ==> keep(after[i]);
    FilterDropsOne(before, id, after, keep);
  }

  function TagCandidate(currentStudentIds: seq<string>, u: SchoolUser): Candidate {
    Candidate(StudentOf(u), u.id in currentStudentIds)
  }

  /** The fetched page: only the users whose role is `student`, in order,
      each tagged with whether its id is among the class's current ids. */
  function TagCandidates(users: seq<SchoolUser>, currentStudentIds: seq<string>): (r: seq<Candidate>)
    ensures |r| == |StudentsOnly(users)|
    ensures forall i :: 0 <= i < |r| ==> r[i].student == StudentOf(StudentsOnly(users)[i])
    ensures forall i :: 0 <= i < |r| ==> (r[i].inClass <==> r[i].student.id in currentStudentIds)
  {
    Map(StudentsOnly(users), (u: SchoolUser) => TagCandidate(currentStudentIds, u))
  }

  /** Every listed candidate is a student-role user of the page. */
  lemma CandidatesAreStudents(users: seq<SchoolUser>, currentStudentIds: seq<string>, i: nat)
    requires i < |TagCandidates(users, currentStudentIds)|
    ensures exists u :: u in users && u.role == "student" && TagCandidates(users, currentStudentIds)[i].student == StudentOf(u)
  {
    var u := StudentsOnly(users)[i];
    assert u in StudentsOnly(users);
  }

  /** `Math.ceil(n / d)` for a non-negative integer `n`. */
  function CeilDiv(n: nat, d: nat): (q: nat)
    requires d > 0
    ensures n == 0 ==> q == 0
    ensures n > 0 ==> (q - 1) * d < n <= q * d
  {
    (n + d - 1) / d
  }

  /** `data.pages || Math.ceil(data.total / limit)`: a missing or zero page
      count falls back to the count computed from the total. */
  function TotalPages(pages: Option<int>, total: nat): (r: int)
    ensures pages.Some? && pages.value != 0 ==> r == pages.value
    ensures (pages.None? || pages.value == 0) && total == 0 ==> r == 0
    ensures (pages.None? || pages.value == 0) && total > 0 ==> r > 0 && (r - 1) * Limit < total <= r * Limit
  {
    if pages.Some? && pages.value != 0 then pages.value else CeilDiv(total, Limit)
  }

  /** The page a request asks for: `pageNumber = resetPage ? 1 : page` as a
      default, overridden by an explicit `pageNumber`. */
  function PageNumber(pageNumber: Option<int>, resetPage: bool, page: int): (p: int)
    ensures pageNumber.Some? ==> p == pageNumber.value
    ensures pageNumber.None? && resetPage ==> p == 1
    ensures pageNumber.None? && !resetPage ==> p == page
  {
    match pageNumber
    case Some(n) => n
    case None => if resetPage then 1 else page
  }

  /** `{base}/users/school/{school}?page=`. */
  function PagePrefix(base: string, school: string): string {
    base + "/users/school/" + school + "?page="
  }

  /** `&limit={limit}`, then `&search={encoded q}` when `q` is non-empty. */
  function AfterPage(limit: nat, q: string, encode: string -> string): (r: string)
    ensures r != [] && r[0] == '&'
  {
    "&limit=" + NatToString(limit) + (if q != "" then "&search=" + encode(q) else "")
  }

  /** The request URL. `encode` is `encodeURIComponent`. */
  function QueryUrl(base: string, school: string, page: int, limit: nat, q: string, encode: string -> string): string {
    PagePrefix(base, school) + IntToString(page) + AfterPage(limit, q, encode)
  }

  /** The search parameter is appended exactly when the query is non-empty,
      after everything else. */
  lemma QueryUrlSearchSuffix(base: string, school: string, page: int, limit: nat, q: string, encode: string -> string)
    ensures q != "" ==> QueryUrl(base, school, page, limit, q, encode) ==
                        QueryUrl(base, school, page, limit, "", encode) + "&search=" + encode(q)
    ensures q == "" ==> QueryUrl(base, school, page, limit, q, encode) ==
                        PagePrefix(base, school) + IntToString(page) + "&limit=" + NatToString(limit)
  {
  }

  /** Different non-negative pages give different URLs. */
  lemma QueryUrlPageInjective(base: string, school: string, p1: nat, p2: nat, limit: nat, q: string, encode: string -> string)
    requires QueryUrl(base, school, p1, limit, q, encode) == QueryUrl(base, school, p2, limit, q, encode)
    ensures p1 == p2
  {
    var pre, tail := PagePrefix(base, school), AfterPage(limit, q, encode);
    var d1, d2 := NatToString(p1), NatToString(p2);
    var u := QueryUrl(base, school, p1, limit, q, encode);
    assert u == pre + (d1 + tail);
    assert u == pre + (d2 + tail);
    assert u[|pre|..] == d1 + tail;
    assert u[|pre|..] == d2 + tail;
    SpellingBeforeNonDigit(p1, tail, p2, tail);
  }

  /** What the request of `fetchStudents` ended in: the parsed page, the
      15-second abort, or an exception with its message, if any (from
      `handleApiResponse` or the network). */
  datatype FetchOutcome =
    | Page(users: seq<SchoolUser>, total: nat, pages: Option<int>, page: int)
    | TimedOut
    | Failed(message: Option<string>)

  const TimedOutAlert := Alert("Connection Error", "The request timed out. Please check your internet connection and try again.")
  const NoSelectionAlert := Alert("No Students Selected", "Please select at least one student to add to the classroom.")

  const FetchFallback := "Failed to fetch students"

  /** The success text of `handleAddStudents`. */
  function AddedMessage(n: nat): string {
    NatToString(n) + " student" + (if n > 1 then "s" else "") + " added to classroom successfully."
  }

  /** The footer with the paging buttons is shown only past one page. */
  predicate FooterShown(totalPages: int) {
    totalPages > 1
  }

  /** "Previous" is disabled on the first page. */
  predicate PrevDisabled(page: int) {
    page == 1
  }

  /** "Next" is disabled on the last page. */
  predicate NextDisabled(page: int, totalPages: int) {
    page == totalPages
  }

  /** The screen's state. */
  class StudentPicker {
    const classroomId: string
    /** `route.params.currentStudentIds`, `[]` when absent. */
    const currentStudentIds: seq<string>
    /** The signed-in user. */
    const user: Option<User>
    /** `apiConfig.baseUrl`. */
    const baseUrl: string
    var students: seq<Candidate>
    var search: string
    var selectedStudents: seq<string>
    var page: int
    var totalPages: int
    var totalStudents: int

    constructor(classroomId: string, currentStudentIds: Option<seq<string>>, user: Option<User>, baseUrl: string)
      ensures this.classroomId == classroomId && this.user == user && this.baseUrl == baseUrl
      ensures this.currentStudentIds == (if currentStudentIds.Some? then currentStudentIds.value else [])
      ensures students == [] && search == "" && selectedStudents == []
      ensures page == 1 && totalPages == 0 && totalStudents == 0
    {
      this.classroomId := classroomId;
      this.currentStudentIds := if currentStudentIds.Some? then currentStudentIds.value else [];
      this.user := user;
      this.baseUrl := baseUrl;
      students := [];
      search := "";
      selectedStudents := [];
      page := 1;
      totalPages := 0;
      totalStudents := 0;
    }

    /** `fetchStudents(options)` with `searchQuery` already defaulted to the
      current search. `outcome` is what the request ended in; `url` is the
      request sent, if any, and `alert` what is shown. */
    method FetchStudents(resetPage: bool, searchQuery: string, pageNumber: Option<int>,
                         outcome: FetchOutcome, encode: string -> string)
      returns (url: Option<string>, alert: Option<Alert>)
      modifies this
      ensures search == old(search) && selectedStudents == old(selectedStudents)
      ensures SchoolCheck(user).Some? ==>
                && url.None? && alert == SchoolCheck(user)
                && students == old(students) && totalStudents == old(totalStudents) && totalPages == old(totalPages)
                && page == (if resetPage then 1 else old(page))
      ensures SchoolCheck(user).None? ==>
                url == Some(QueryUrl(baseUrl, user.value.school, PageNumber(pageNumber, resetPage, old(page)),
                                     Limit, searchQuery, encode))
      ensures SchoolCheck(user).None? && outcome.Page? ==>
                && alert.None?
                && students == TagCandidates(outcome.users, currentStudentIds)
                && totalStudents == outcome.total
                && totalPages == TotalPages(outcome.pages, outcome.total)
                && page == outcome.page
      ensures SchoolCheck(user).None? && outcome.TimedOut? ==>
                && alert == Some(TimedOutAlert)
                && students == old(students) && totalStudents == old(totalStudents) && totalPages == old(totalPages)
                && page == (if resetPage then 1 else old(page))
      ensures SchoolCheck(user).None? && outcome.Failed? ==>
                && alert == FetchFailureAlert(outcome.message, FetchFallback)
                && students == [] && totalStudents == 0 && totalPages == 0
                && page == (if resetPage then 1 else old(page))
    {
      var requested := PageNumber(pageNumber, resetPage, page);
      if resetPage {
        page := 1;
      }
      alert := SchoolCheck(user);
      if alert.Some? {
        return None, alert;
      }
      url := Some(QueryUrl(baseUrl, user.value.school, requested, Limit, searchQuery, encode));
      match outcome {
        case Page(users, total, pages, p) =>
          students := TagCandidates(users, currentStudentIds);
          totalStudents := total;
          totalPages := TotalPages(pages, total);
          page := p;
        case TimedOut =>
          alert := Some(TimedOutAlert);
        case Failed(m) =>
          alert := FetchFailureAlert(m, FetchFallback);
          students := [];
          totalStudents := 0;
          totalPages := 0;
      }
    }

    /** `handleSearchChange(text)`: the search is updated at once; an empty
      text fetches the first page immediately (`immediate`), any other text
      after the debounce delay, with `resetPage` set in both cases. */
    method HandleSearchChange(text: string) returns (immediate: bool)
      modifies this
      ensures search == text && immediate == (text == "")
      ensures students == old(students) && selectedStudents == old(selectedStudents) && page == old(page)
      ensures totalPages == old(totalPages) && totalStudents == old(totalStudents)
    {
      search := text;
      immediate := text == "";
    }

    method ToggleStudentSelection(id: string)
      modifies this
      ensures selectedStudents == ToggleSelection(old(selectedStudents), id)
      ensures students == old(students) && search == old(search) && page == old(page)
      ensures totalPages == old(totalPages) && totalStudents == old(totalStudents)
    {
      selectedStudents := ToggleSelection(selectedStudents, id);
    }

    /** A tap on the `i`-th row: rows of students already in the class are
      disabled and change nothing. */
    method TapStudent(i: nat)
      requires i < |students|
      modifies this
      ensures students == old(students) && search == old(search) && page == old(page)
      ensures students[i].inClass ==> selectedStudents == old(selectedStudents)
      ensures !students[i].inClass ==> selectedStudents == ToggleSelection(old(selectedStudents), students[i].student.id)
      ensures totalPages == old(totalPages) && totalStudents == old(totalStudents)
    {
      if !students[i].inClass {
        ToggleStudentSelection(students[i].student.id);
      }
    }

    /** `handleAddStudents`: with nothing selected only an alert; otherwise
      the ids sent as `studentIds` and the alert for the POST's outcome. */
    method AddStudents(posted: Result<()>) returns (studentIds: Option<seq<string>>, alert: Alert)
      ensures selectedStudents == [] ==> studentIds.None? && alert == NoSelectionAlert
      ensures selectedStudents != [] ==> studentIds == Some(selectedStudents)
      ensures selectedStudents != [] && posted.Ok? ==> alert == Alert("Success", AddedMessage(|selectedStudents|))
      ensures selectedStudents != [] && posted.Err? ==>
                alert == Alert("Error", OrElse(posted.message, "Failed to add students to classroom"))
    {
      if |selectedStudents| == 0 {
        return None, NoSelectionAlert;
      }
      studentIds := Some(selectedStudents);
      match posted {
        case Ok(_) => alert := Alert("Success", AddedMessage(|selectedStudents|));
        case Err(m) => alert := Alert("Error", OrElse(m, "Failed to add students to classroom"));
      }
    }
  }
}
