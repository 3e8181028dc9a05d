/** Students as the backend returns them, and the case-insensitive
    name/registration-id search shared by the roster screens. */
module Roster {
  import opened Seqs
  import opened JsString

  /** A roster entry: `{_id, name, registrationId}`. */
  datatype Student = Student(id: string, name: string, registrationId: string)

  /** A user of `/users/school/{school}`, of any role. */
  datatype SchoolUser = SchoolUser(
    id: string,
    name: string,
    registrationId: string,
    email: string,
    mobile: string,
    role: string,
    school: string,
    isActive: bool)

  function StudentOf(u: SchoolUser): Student {
    Student(u.id, u.name, u.registrationId)
  }

  function IdOf(s: Student): string {
    s.id
  }

  /** `user.role === "student"`. */
  predicate IsStudentRole(u: SchoolUser) {
    u.role == "student"
  }

  /** `users.filter((user) => user.role === "student")`. */
  function StudentsOnly(users: seq<SchoolUser>): (r: seq<SchoolUser>)
    ensures forall u :: u in r <==> u in users && u.role == "student"
  {
    Filter(users, IsStudentRole)
  }

  /** `name.toLowerCase().includes(q) || registrationId.toLowerCase().includes(q)`
      for an already lower-cased query `q`. */
  predicate QueryMatches(s: Student, q: string) {
    Contains(ToLower(s.name), q) || Contains(ToLower(s.registrationId), q)
  }

  /** The search filter without a blank check: the query is lower-cased but
      not trimmed. `student` picks the roster fields out of an item. */
  function NameOrIdFilter<T>(items: seq<T>, student: T -> Student, search: string): (r: seq<T>)
    ensures |r| <= |items|
    ensures forall x :: x in r ==> x in items && QueryMatches(student(x), ToLower(search))
    ensures forall i :: 0 <= i < |items| && QueryMatches(student(items[i]), ToLower(search)) ==> items[i] in r
  {
    Filter(items, x => QueryMatches(student(x), ToLower(search)))
  }

  /** The search filter behind `if (!search.trim()) { show all } else ...`. */
  function TrimmedSearch<T>(items: seq<T>, student: T -> Student, search: string): (r: seq<T>)
    ensures IsBlank(search) ==> r == items
    ensures !IsBlank(search) ==> r == NameOrIdFilter(items, student, search)
  {
    if IsBlank(search) then items else NameOrIdFilter(items, student, search)
  }

  /** The empty query matches every item, so the untrimmed filter returns
      its whole input. */
  lemma EmptyQueryKeepsAll<T>(items: seq<T>, student: T -> Student)
    ensures NameOrIdFilter(items, student, "") == items
  {
    forall i | 0 <= i < |items| ensures QueryMatches(student(items[i]), ToLower("")) {
      ContainsEmpty(ToLower(student(items[i]).name));
    }
    FilterKeepsAll(items, x => QueryMatches(student(x), ToLower("")));
  }

  /** Lower-casing leaves a string without spaces without spaces, so a
      one-space query finds nothing in it. */
  lemma NoSpaceNoMatch(t: string)
    requires forall i :: 0 <= i < |t| ==> t[i] != ' '
    ensures !Contains(ToLower(t), " ")
  {
    var l := ToLower(t);
    assert forall i :: 0 <= i < |l| ==> l[i] != ' ';
    AbsentCharNotContained(l, ' ');
  }

  /** A query of one space: the untrimmed filter drops every student whose
      name and registration id hold no space, while the trimmed search
      shows them. */
  lemma WhitespaceQueryFiltersLiterally(s: Student)
    requires forall i :: 0 <= i < |s.name| ==> s.name[i] != ' '
    requires forall i :: 0 <= i < |s.registrationId| ==> s.registrationId[i] != ' '
    ensures NameOrIdFilter([s], (x: Student) => x, " ") == []
    ensures TrimmedSearch([s], (x: Student) => x, " ") == [s]
  {
    NoSpaceNoMatch(s.name);
    NoSpaceNoMatch(s.registrationId);
    assert ToLower(" ") == " ";
    assert !QueryMatches(s, ToLower(" "));
    BlankIff(" ");
  }
}
