/** The list controller of the `Todo` component: the to-do records, the next
    id to hand out, the validation message, the current page and the value of
    the text box, and the operations that change them (add, the Enter key,
    Previous, Next). */
module TodoList {
  import opened Trimming
  import Pagination

  datatype Option<T> = None | Some(value: T)

  /** One to-do record: its id `no`, its task text, and the secondary
      annotation `display`, which starts empty. */
  datatype Todo = Todo(no: int, text: string, display: string)

  /** The message shown when add is attempted with a blank text box. */
  const EmptyTaskError: string := "Please enter a task"

  /** Text the controller accepts as a task: not empty, with no whitespace at
      either end (what Trim returns for a non-blank input). */
  predicate IsTaskText(t: string) {
    t != [] && !IsWhitespace(t[0]) && !IsWhitespace(t[|t| - 1])
  }

  /** The id and text discipline of a list built by add: every id is below the
      next id to assign, ids increase strictly in list order, and every text
      is a trimmed, non-empty task. */
  predicate WellFormed(todos: seq<Todo>, count: int) {
    (forall i :: 0 <= i < |todos| ==> todos[i].no < count && IsTaskText(todos[i].text)) &&
    (forall i, j :: 0 <= i < j < |todos| ==> todos[i].no < todos[j].no)
  }

  /** A well-formed list never holds two records with the same id. */
  lemma WellFormedIdsUnique(todos: seq<Todo>, count: int)
    requires WellFormed(todos, count)
    ensures forall i, j :: 0 <= i < |todos| && 0 <= j < |todos| && todos[i].no == todos[j].no ==> i == j
  {
  }

  /** Appending a record with the next id and a task text keeps the list
      well-formed under the incremented counter. */
  lemma AppendKeepsWellFormed(todos: seq<Todo>, count: int, text: string)
    requires WellFormed(todos, count)
    requires IsTaskText(text)
    ensures WellFormed(todos + [Todo(count, text, "")], count + 1)
  {
  }

  class TodoController {
    var todos: seq<Todo>
    /** The id the next added record receives (`count`). */
    var count: int
    var error: string
    /** The 1-based page on display (`currentPage`). */
    var currentPage: int
    /** The current value of the text box. */
    var input: string

    /** The cursor invariant: the current page is between 1 and the last
        page (page 1 when the list is empty). */
    predicate Valid()
      reads this
    {
      Pagination.PageInRange(currentPage, |todos|)
    }

    /** `totalPages`: the number of pages the list spans, the least one that
        holds every record; zero exactly for an empty list. */
    function TotalPages(): (r: nat)
      reads this
      ensures |todos| <= r * Pagination.PageSize
      ensures r == 0 || (r - 1) * Pagination.PageSize < |todos|
      ensures r == 0 <==> todos == []
    {
      Pagination.TotalPages(|todos|)
    }

    /** `currentTodos`: the records shown on the current page, at most
        PageSize of them, taken in order from index
        `(currentPage - 1) * PageSize`; never empty on a valid, non-empty
        list. */
    function CurrentTodos(): (r: seq<Todo>)
      reads this
      ensures |r| <= Pagination.PageSize
      ensures 1 <= currentPage ==>
        |r| == Pagination.Min(Pagination.PageSize, Pagination.Max(0, |todos| - (currentPage - 1) * Pagination.PageSize))
      ensures 1 <= currentPage ==> forall i :: 0 <= i < |r| ==>
        (currentPage - 1) * Pagination.PageSize + i < |todos| &&
        r[i] == todos[(currentPage - 1) * Pagination.PageSize + i]
      ensures Valid() && todos != [] ==> r != []
    {
      var r := Pagination.PageSlice(todos, currentPage);
      Pagination.PageNonEmptyIff(todos, if currentPage < 0 then 0 else currentPage);
      r
    }

    /** The component's initial state: the stored list and counter when
        storage holds them (`None` standing for a missing or empty entry),
        `[]` and 0 otherwise; no error, page 1, an empty text box. */
    constructor (storedTodos: Option<seq<Todo>>, storedCount: Option<int>)
      ensures todos == (if storedTodos.Some? then storedTodos.value else [])
      ensures count == (if storedCount.Some? then storedCount.value else 0)
      ensures error == "" && currentPage == 1 && input == ""
      ensures Valid()
    {
      todos := if storedTodos.Some? then storedTodos.value else [];
      count := if storedCount.Some? then storedCount.value else 0;
      error := "";
      currentPage := 1;
      input := "";
    }

    /** The user types into the text box; nothing else changes. */
    method EditInput(value: string)
      requires Valid()
      modifies this`input
      ensures input == value
      ensures Valid()
    {
      input := value;
    }

    /** `add`: reject a blank text box with the error message and no other
        change; otherwise append `{no: count, text: trimmed input, display:
        ''}`, advance the counter, clear the text box and the error, and
        show the last page, where the new record is the last one shown. */
    method Add()
      requires Valid()
      modifies this
      ensures Valid()
      ensures old(WellFormed(todos, count)) ==> WellFormed(todos, count)
      ensures Trim(old(input)) == [] ==>
        && error == EmptyTaskError
        && todos == old(todos) && count == old(count)
        && currentPage == old(currentPage) && input == old(input)
      ensures Trim(old(input)) != [] ==>
        && todos == old(todos) + [Todo(old(count), Trim(old(input)), "")]
        && count == old(count) + 1
        && error == "" && input == ""
        && currentPage == TotalPages()
      ensures Trim(old(input)) != [] ==>
        var shown := CurrentTodos(); shown != [] && shown[|shown| - 1] == todos[|todos| - 1]
    {
      var inputValue := Trim(input);
      if inputValue == "" {
        error := EmptyTaskError;
        return;
      }
      var newTodo := Todo(count, inputValue, "");
      var updatedTodos := todos + [newTodo];
      var lastPage := Pagination.TotalPages(|todos| + 1);
      if WellFormed(todos, count) {
        AppendKeepsWellFormed(todos, count, inputValue);
      }
      Pagination.LastRecordOnLastPage(updatedTodos);
      todos := updatedTodos;
      count := count + 1;
      input := "";
      error := "";
      currentPage := lastPage;
    }

    /** `handleKeyPress`: the Enter key adds; any other key changes nothing. */
    method HandleKeyPress(key: string)
      requires Valid()
      modifies this
      ensures Valid()
      ensures key != "Enter" ==> unchanged(this)
      ensures key == "Enter" && Trim(old(input)) == [] ==>
        && error == EmptyTaskError
        && todos == old(todos) && count == old(count)
        && currentPage == old(currentPage) && input == old(input)
      ensures key == "Enter" && Trim(old(input)) != [] ==>
        && todos == old(todos) + [Todo(old(count), Trim(old(input)), "")]
        && count == old(count) + 1
        && error == "" && input == ""
        && currentPage == TotalPages()
    {
      if key == "Enter" {
        Add();
      }
    }

    /** `goToNextPage`, reachable only while the pagination controls are
        shown (more than one page): one page on, but never past the last
        one; the cursor stays in range and never moves back. */
    method GoToNextPage()
      requires Valid()
      requires TotalPages() > 1
      modifies this`currentPage
      ensures Valid()
      ensures currentPage == Pagination.NextPage(old(currentPage), TotalPages())
      ensures old(currentPage) <= currentPage
      ensures old(currentPage) < TotalPages() ==> currentPage == old(currentPage) + 1
      ensures old(currentPage) == TotalPages() ==> currentPage == old(currentPage)
    {
      Pagination.NavigationKeepsPageInRange(currentPage, |todos|);
      currentPage := Pagination.NextPage(currentPage, TotalPages());
    }

    /** `goToPreviousPage`: one page back, but never before page 1; the
        cursor stays in range and never moves forward. */
    method GoToPreviousPage()
      requires Valid()
      modifies this`currentPage
      ensures Valid()
      ensures currentPage == Pagination.PrevPage(old(currentPage))
      ensures currentPage <= old(currentPage)
      ensures 1 < old(currentPage) ==> currentPage == old(currentPage) - 1
      ensures old(currentPage) == 1 ==> currentPage == 1
    {
      Pagination.NavigationKeepsPageInRange(currentPage, |todos|);
      currentPage := Pagination.PrevPage(currentPage);
    }
  }

  /** On a widget restored with one task, a blank attempt only sets the
      error message and leaves the text box as it was. */
  method BlankInputScenario(task: string, blank: string)
    requires IsTaskText(task) && IsBlank(blank)
  {
    var c := new TodoController(Some([Todo(0, task, "")]), Some(1));
    TrimEmptyIffBlank(blank);
    c.EditInput(blank);
    c.Add();
    assert c.todos == [Todo(0, task, "")] && c.count == 1 && c.currentPage == 1;
    assert c.error == EmptyTaskError && c.input == blank;
  }

  /** Six tasks added to a fresh widget spill onto a second page, which add
      shows; Previous and Next then move between the two pages. */
  method PaginateScenario(task: string)
    requires IsTaskText(task)
  {
    var c := new TodoController(None, None);
    TrimUnpadded(task);
    var k := 0;
    while k < 6
      invariant 0 <= k <= 6
      invariant c.Valid() && |c.todos| == k && c.count == k
      invariant 0 < k ==> c.currentPage == c.TotalPages()
    {
      c.EditInput(task);
      c.Add();
      k := k + 1;
    }
    assert c.currentPage == 2 && c.TotalPages() == 2;
    c.GoToPreviousPage();
    assert c.currentPage == 1;
    c.GoToNextPage();
    assert c.currentPage == 2;
  }
}
