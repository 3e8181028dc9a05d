/** The Home screen: the teacher's classes and a search over their names.
    The search effect runs only when the search text changes, so a fetch
    shows every class whatever the search box holds. */
module Home {
  import opened Outcomes
  import opened Seqs
  import opened JsString
  import opened ApiHelpers

  /** A class as `GET /classrooms` returns it. */
  datatype ClassItem = ClassItem(id: string, name: string, description: string, students: seq<string>, schoolName: string)

  const FetchFallback := "Failed to fetch classes"

  /** `cls.name.toLowerCase().includes(q)` for the lower-cased query. */
  predicate NameMatches(c: ClassItem, search: string) {
    Contains(ToLower(c.name), ToLower(search))
  }

  /** `classes.filter(...)`: the classes whose lower-cased name contains
      the lower-cased, untrimmed search, in order. */
  function NameFilter(classes: seq<ClassItem>, search: string): (r: seq<ClassItem>)
    ensures |r| <= |classes|
    ensures forall c :: c in r <==> c in classes && NameMatches(c, search)
  {
    Filter(classes, c => NameMatches(c, search))
  }

  /** The empty search keeps every class. */
  lemma EmptySearchKeepsAll(classes: seq<ClassItem>)
    ensures NameFilter(classes, "") == classes
  {
    forall i | 0 <= i < |classes| ensures NameMatches(classes[i], "") {
      ContainsEmpty(ToLower(classes[i].name));
    }
    FilterKeepsAll(classes, c => NameMatches(c, ""));
  }

  /** The screen's state. */
  class ClassList {
    var classes: seq<ClassItem>
    var search: string
    var filtered: seq<ClassItem>

    /** Whatever happened last, every visible class is one of the classes. */
    ghost predicate Valid()
      reads this
    {
      forall c :: c in filtered ==> c in classes
    }

    constructor()
      ensures Valid() && classes == [] && filtered == [] && search == ""
    {
      classes, filtered, search := [], [], "";
    }

    /** `fetchClasses`: `fetched` is the response body through
      `handleApiResponse`. Both lists become the fetched classes, even when
      the search box is not empty. */
    method FetchClasses(fetched: Result<seq<ClassItem>>) returns (alert: Option<Alert>)
      requires Valid()
      modifies this
      ensures Valid() && search == old(search)
      ensures fetched.Ok? ==> classes == fetched.value && filtered == fetched.value && alert.None?
      ensures fetched.Err? ==>
                && classes == old(classes) && filtered == old(filtered)
                && alert == FetchFailureAlert(Some(fetched.message), FetchFallback)
    {
      match fetched {
        case Ok(data) =>
          classes := data;
          filtered := data;
          alert := None;
        case Err(message) =>
          alert := FetchFailureAlert(Some(message), FetchFallback);
      }
    }

    /** Typing in the search box: the effect filters the current classes. */
    method SetSearch(q: string)
      requires Valid()
      modifies this
      ensures Valid() && search == q && classes == old(classes)
      ensures filtered == NameFilter(classes, q)
    {
      search := q;
      filtered := NameFilter(classes, search);
    }
  }
}
