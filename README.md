# To-do list controller, modelled in Dafny

The to-do list widget keeps an ordered list of task records `{no, text,
display}`, the id the next task will receive (`count`), a validation message
(`error`), a 1-based page cursor (`currentPage`) and the value of its text box.
Adding a task trims the text box. Blank input only sets the message "Please
enter a task". Otherwise the widget appends a record with the next id, bumps the
counter, clears the text box and the message, and jumps to the last page. The
list is shown five records per page, with Previous and Next controls.

The model has three modules:

- `Trimming` (`trimming.dfy`): JavaScript's `String.prototype.trim`, written
  out over the ECMAScript WhiteSpace and LineTerminator characters. Lemmas show
  that it removes blank text from both ends and nothing else, that its result
  is empty exactly for blank input, and that it is idempotent.
- `Pagination` (`pagination.dfy`): the page arithmetic as pure functions.
  `Math.ceil(n / 5)` becomes `(n + 4) / 5` on naturals. `Array.prototype.slice`
  is modelled with its clamping of negative and out-of-range arguments. The
  module also holds the visible page slice and the `Math.min` / `Math.max`
  moves of Next and Previous. Lemmas show that the pages partition the list,
  that a page is non-empty exactly when it lies between 1 and the page count,
  and that each record sits on page `k / 5 + 1`.
- `TodoList` (`todo_list.dfy`): the record datatype and the id/text discipline
  `WellFormed`. It also holds the class `TodoController`, whose fields are the
  component's state and whose methods are the state transitions. `Valid()` is
  the cursor invariant `1 <= currentPage <= max(1, totalPages)`, and every
  method preserves it. `Add` also preserves `WellFormed`: ids stay below
  `count` and strictly increase in list order, so they are unique. Two
  client methods walk through concrete uses: a blank attempt on a restored
  list, and six added tasks that reach a second page, followed by Previous
  and Next between the two pages.

The React setters in `add` run as one batch. The model applies them at once to
the state that `add` started from. `Math.ceil((todos.length + 1) / 5)` is
therefore computed from the old length, and `prevCount => prevCount + 1` is
`count + 1`.

At start-up the code (src/Components/Todo.jsx:8) calls `JSON.parse` on the
stored list unguarded, and that call throws on malformed text. The constructor
receives the stored values already decoded, and only a missing or empty entry
falls back to `[]` and `0`.

## Model

| member | source | states |
|---|---|---|
| `Trimming.TrimStart` | src/Components/Todo.jsx:23 | the leading-whitespace cut of `trim`: no longer than the input, and empty or starting with a non-whitespace character |
| `Trimming.TrimEnd` | src/Components/Todo.jsx:23 | the trailing-whitespace cut of `trim`: no longer than the input, and empty or ending with a non-whitespace character |
| `Trimming.TrimStartSplits` | src/Components/Todo.jsx:23 | the input is a blank prefix followed by exactly the string TrimStart returns |
| `Trimming.TrimEndSplits` | src/Components/Todo.jsx:23 | the input is exactly the string TrimEnd returns followed by a blank suffix |
| `Trimming.Trim` | src/Components/Todo.jsx:23 | the trimmed input value is no longer than the input and is empty or has no whitespace at either end |
| `Trimming.TrimIsInfix` | src/Components/Todo.jsx:23 | the trimmed value is the contiguous piece of the input that starts where the leading whitespace ends |
| `Trimming.TrimDropsOnlyBlank` | src/Components/Todo.jsx:23 | everything trim removes, before and after its result, is whitespace |
| `Trimming.TrimEmptyIffBlank` | src/Components/Todo.jsx:23-28 | the trimmed value is `''` exactly when the input is blank, so the blank check rejects exactly the blank inputs |
| `Trimming.TrimUnpadded` | src/Components/Todo.jsx:23 | a non-empty text with no whitespace at either end is its own trim |
| `Trimming.TrimIdempotent` | src/Components/Todo.jsx:23 | trimming an already trimmed value changes nothing |
| `Pagination.TotalPages` | src/Components/Todo.jsx:64 | `totalPages` is the least page count that holds every record: `n <= r * 5` and `(r - 1) * 5 < n` unless `r == 0` |
| `Pagination.SliceIndex` | src/Components/Todo.jsx:61 | a slice argument becomes an index within the list, equal to `min(k, len)` when it is not negative |
| `Pagination.Slice` | src/Components/Todo.jsx:61 | `slice(start, end)` with non-negative arguments has length `max(0, min(end, len) - start)`, and its element `i` is list element `start + i` |
| `Pagination.PageSlice` | src/Components/Todo.jsx:59-61 | the visible page holds at most 5 records; on page `p >= 1` it has `min(5, max(0, len - (p - 1) * 5))` records, and its element `i` is record `(p - 1) * 5 + i` |
| `Pagination.PageNonEmptyIff` | src/Components/Todo.jsx:59-64 | page `p` shows something exactly when `1 <= p <= totalPages`, so a cursor past the last page shows an empty list |
| `Pagination.RecordOnItsPage` | src/Components/Todo.jsx:59-64 | record `k` is shown on page `k / 5 + 1`, which is a real page, at position `k % 5` |
| `Pagination.LastRecordOnLastPage` | src/Components/Todo.jsx:59-64 | on a non-empty list, the last page is non-empty and ends with the last record |
| `Pagination.PagesUpToIsPrefix` | src/Components/Todo.jsx:59-61 | pages 1 to `n`, read in order, are the first `min(5n, len)` records |
| `Pagination.PagesCoverList` | src/Components/Todo.jsx:59-64 | pages 1 to `totalPages`, read in order, are the whole list: each record shown once, in list order |
| `Pagination.NextPage` | src/Components/Todo.jsx:66-68 | `min(p + 1, total)`: from a page in range it stays in range and never goes back, it moves one page on when not on the last page, and otherwise gives the last page |
| `Pagination.PrevPage` | src/Components/Todo.jsx:70-72 | `max(p - 1, 1)`: always at least 1, never after the old page, one page back when past page 1 |
| `Pagination.NavigationKeepsPageInRange` | src/Components/Todo.jsx:64-72 | from a cursor in `[1, max(1, totalPages)]`, Previous always stays in range, and Next stays in range whenever more than one page exists |
| `Pagination.NextPrevInverse` | src/Components/Todo.jsx:66-72 | away from the ends, Previous undoes Next and Next undoes Previous |
| `TodoList.WellFormedIdsUnique` | src/Components/Todo.jsx:30-38 | in a list built by add, no two records share an id |
| `TodoList.AppendKeepsWellFormed` | src/Components/Todo.jsx:30-38 | appending `{no: count, text, display: ''}` with a trimmed, non-empty text keeps every id below the incremented counter, keeps ids strictly increasing and keeps every text trimmed and non-empty |
| `TodoList.TodoController.TotalPages` | src/Components/Todo.jsx:64 | the page count of the current list is the least one that holds every record, and it is zero exactly for an empty list |
| `TodoList.TodoController.CurrentTodos` | src/Components/Todo.jsx:59-61 | `currentTodos` holds at most 5 records, exactly `min(5, max(0, len - (currentPage - 1) * 5))` of them, taken in order from index `(currentPage - 1) * 5`, and is non-empty on a valid non-empty list |
| `TodoList.TodoController.constructor` | src/Components/Todo.jsx:6-17 | the state starts from the stored list and counter, or `[]` and `0` when storage has none, with no error, page 1, an empty text box, and the cursor invariant holding |
| `TodoList.TodoController.EditInput` | src/Components/Todo.jsx:78-84 | typing into the text box changes its value and nothing else |
| `TodoList.TodoController.Add` | src/Components/Todo.jsx:22-42 | blank input sets the error and changes nothing else; otherwise it appends exactly `{no: old count, text: trimmed input, display: ''}` after the unchanged old records, increments the counter by one, clears the text box and the error, and moves to the last page, whose last shown record is the new one. The cursor invariant and the id/text discipline are preserved |
| `TodoList.TodoController.HandleKeyPress` | src/Components/Todo.jsx:44-48 | Enter behaves as add; any other key changes nothing |
| `TodoList.TodoController.GoToNextPage` | src/Components/Todo.jsx:66-68 | while more than one page exists, the cursor becomes `min(p + 1, totalPages)`: one page on, or unchanged on the last page, never backwards, and still in range |
| `TodoList.TodoController.GoToPreviousPage` | src/Components/Todo.jsx:70-72 | the cursor becomes `max(p - 1, 1)`: one page back, or unchanged on page 1, never forwards, and still in range |

## Left out

- Persistence is left out. The `localStorage` reads at start-up and the `useEffect` writes of the list and the counter (src/Components/Todo.jsx:6-14, 50-56) are browser I/O. `JSON.parse`, `JSON.stringify` and `parseInt` are foreign library calls. The constructor takes the decoded stored values as parameters instead.
- TodoList.TodoController.constructor: does not model the exception that the unguarded `JSON.parse` (src/Components/Todo.jsx:8) throws on malformed stored text; it takes already-decoded values.
- `parseInt` can return `NaN`, and JavaScript numbers lose precision above 2^53. The model's counter is an unbounded integer that is always defined.
- Removing or editing a record is left out. Both happen in `TodoItem`, through the `setTodos` it receives, and `TodoItem` is not part of this model. So is the fact that removal does not re-clamp the cursor. `Pagination.PageNonEmptyIff` shows what that cursor would display: an empty page.
- JSX rendering, CSS and the error banner (src/Components/Todo.jsx:74-111) are left out. The only trace of the rendering is the `totalPages > 1` guard on `GoToNextPage`, because the pagination controls exist only then.
- TodoList.TodoController.GoToNextPage: does not also require `currentPage != totalPages`, the condition that disables the Next button. At the boundary the call leaves the cursor unchanged, as proved.
- TodoList.TodoController.GoToPreviousPage: does not require `totalPages > 1`. The cursor invariant holds after Previous in every state.
- React hook mechanics are left out: `useState`, updater closures, `useRef` and re-rendering. A field of the class stands for the text box (`inputRef.current.value`). Setter batching is modelled as one atomic update.
- JavaScript's `trim` treats the whole Unicode `Zs` (space separator) category as whitespace. `Trimming.IsWhitespace` lists the current members of that category explicitly, so characters added to it by later Unicode versions are not covered.
