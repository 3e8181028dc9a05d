/** The Students screen: the school's students, fetched after the school
    guard, and the untrimmed name/registration-id search over them. */
module Students {
  import opened Outcomes
  import opened Session
  import opened Roster
  import opened ApiHelpers

  const FetchFallback := "Failed to fetch students"

  /** The visible list: the search is lower-cased but not trimmed, so the
      empty query shows everyone and a query of spaces filters literally. */
  function SearchView(students: seq<SchoolUser>, search: string): seq<SchoolUser> {
    NameOrIdFilter(students, StudentOf, search)
  }

  /** The screen's state; the effect on `[search, students]` recomputes the
      visible list after each change, and each method ends after it. */
  class StudentDirectory {
    var students: seq<SchoolUser>
    var search: string
    var filtered: seq<SchoolUser>

    ghost predicate Valid()
      reads this
    {
      filtered == SearchView(students, search)
    }

    constructor()
      ensures Valid() && students == [] && filtered == [] && search == ""
    {
      students, filtered, search := [], [], "";
    }

    /** `fetchStudents`: the school guard, then the GET; `fetched` is the
      `users` of its response through `handleApiResponse`. On success the
      list keeps the students only and the visible list is set to it (the
      effect then applies the current search); on failure the lists are
      kept and the error is reported unless the session expired. */
    method FetchStudents(user: Option<User>, fetched: Result<seq<SchoolUser>>) returns (requested: bool, alert: Option<Alert>)
      requires Valid()
      modifies this
      ensures Valid() && search == old(search)
      ensures requested <==> SchoolCheck(user).None?
      ensures !requested ==> alert == SchoolCheck(user) && students == old(students)
      ensures requested && fetched.Ok? ==> students == StudentsOnly(fetched.value) && alert.None?
      ensures requested && fetched.Ok? && search == "" ==> filtered == students
      ensures requested && fetched.Err? ==>
                students == old(students) && alert == FetchFailureAlert(Some(fetched.message), FetchFallback)
    {
      alert := SchoolCheck(user);
      if alert.Some? {
        return false, alert;
      }
      requested := true;
      match fetched {
        case Ok(users) =>
          var list := StudentsOnly(users);
          students := list;
          filtered := SearchView(students, search);
          if search == "" {
            EmptyQueryKeepsAll(students, StudentOf);
          }
        case Err(message) =>
          alert := FetchFailureAlert(Some(message), FetchFallback);
      }
    }

    method SetSearch(q: string)
      requires Valid()
      modifies this
      ensures Valid() && search == q && students == old(students)
    {
      search := q;
      filtered := SearchView(students, search);
    }
  }
}
