# StreamList router and list builder, modelled in Dafny

StreamList is a small single-page React application. It has a navigation bar,
four pages and a hand-written client-side router. This project models the two
pieces of it that hold logic, both from `App.js`.

- **The mock router** (`router.dfy`, module `Router`).
  - `BrowserRouter` holds one piece of navigation state, the current path. It
    starts from the page's pathname, or `"/"` when that is empty. `navigate`
    overwrites it with no checks and no normalisation.
  - `Routes` scans the route table in declaration order. It renders the
    element of the first `Route` whose path equals the current path exactly,
    or nothing at all.
  - A `Link` navigates to its target when activated.
  - A navigation-bar item is styled as active exactly when the location's
    pathname equals its path.
  - The route table is a `seq<Route>` and the navigation state is a class
    `BrowserRouter` with a `currentPath` field. The React context that
    carries it becomes that explicit object.
- **The StreamList list builder** (`stream_list.dfy`, module `StreamList`).
  - It has an input buffer `userInput` and a list `submittedInputs`
    that is append-only while the page stays mounted.
  - `handleInputChange` overwrites the buffer.
  - `handleSubmit` acts only when `userInput.trim()` is non-empty. It then
    appends the buffer as typed (untrimmed) and clears the buffer.
  - `trim` is modelled exactly. Its whitespace set is WhiteSpace and
    LineTerminator of ECMA-262 (sections 12.2 and 12.3). The transitions are
    pure functions on a `Form` value. The class `StreamListForm` holds the two
    fields, and its handler methods are proved equal to those functions.

Two behaviours of the code are worth stating plainly:

- An empty pathname falls back to `"/"` (`InitialPath`).
- Duplicate paths are not rejected; the first declared entry wins
  (`FirstDeclaredWins`).

## Model

| member | source | states |
|---|---|---|
| `Router.Resolve` | App.js:23-32 | The result is none exactly when no entry's path equals the current path. A returned route is an entry of the table whose path equals it. When entry `i` is the first entry in declaration order with that path, the result is exactly entry `i`. |
| `Router.RenderRoutes` | App.js:23-36 | `Routes` renders nothing exactly when no route matches. Otherwise it renders the element of the first matching route. |
| `Router.FirstMatchExists` | App.js:27-29 | If any entry has path `p`, then some entry at or before it is the first entry with path `p`, so the scan always stops at a match when one exists. |
| `Router.FirstDeclaredWins` | App.js:27-31 | For a path that entry `i` carries, the resolver returns an entry declared at or before `i`. With duplicate paths, a later entry is never reached. |
| `Router.ResolveDistinct` | App.js:27-31 | In a table whose paths are pairwise distinct, the resolver returns `route` if and only if `route` is an entry whose path is `p`. |
| `Router.UnknownPathRendersNothing` | App.js:27-31 | For the application's table, a path that is not listed (`"/unknown"`) renders nothing, with no error. |
| `Router.AtMostOneActive` | App.js:163-185 | Two navigation items that are both active for the same pathname are the same item, because the four nav paths are distinct. |
| `Router.ActiveItemIff` | App.js:163-185 | Some navigation item is active if and only if the application's route table resolves the pathname. |
| `Router.NavLinksReachTheirPages` | App.js:163-213 | Each nav item's path renders the page its label names: Home is the StreamList page, then Movies, Cart and About. |
| `Router.IsActive` | App.js:185 | A nav item is active exactly when the pathname equals its path, with no normalisation. An active item of the navigation bar always has a page in the route table. |
| `Router.InitialPath` | App.js:7 | The initial path is never empty. It is the pathname when that is non-empty, and `"/"` otherwise. |
| `Router.BrowserRouter.constructor` | App.js:6-7 | A new router's current path is `InitialPath` of the supplied pathname. `useLocation` (App.js:51-54) reports this field. |
| `Router.BrowserRouter.Navigate` | App.js:10-14 | After `navigate(p)` the current path is `p`, whether or not the table lists `p`. The router has no other state, so two calls with the same `p` leave the same state as one. `useLocation` (App.js:51-54) reports this field. |
| `Router.BrowserRouter.FollowLink` | App.js:38-49 | Activating a link configured with `to` leaves the current path equal to `to`. |
| `StreamList.TrimStart` | App.js:70 | The result is a suffix of the input. Every dropped character is whitespace, and the result is empty or starts with a non-whitespace character. |
| `StreamList.TrimEnd` | App.js:70 | The result is a prefix of the input. Every dropped character is whitespace, and the result is empty or ends with a non-whitespace character. |
| `StreamList.Trim` | App.js:70 | `trim` yields `""` if and only if every character of the input is whitespace. Otherwise the result starts and ends with non-whitespace characters. |
| `StreamList.HasContent` | App.js:70 | `userInput.trim()` is truthy exactly when some character of the buffer is not whitespace. |
| `StreamList.InputChanged` | App.js:64-66 | The buffer becomes the new value and the list is unchanged. |
| `StreamList.Submitted` | App.js:68-75 | With content in the buffer, the list grows by exactly one and keeps its old entries as a prefix in order. The new last entry is the untrimmed buffer, and the buffer becomes `""`. With an empty or all-whitespace buffer, the whole state is unchanged. |
| `StreamList.SubmitTwiceIsOnce` | App.js:68-75 | Submitting twice in a row leaves the same state as submitting once. |
| `StreamList.TransitionsKeepEntriesHaveContent` | App.js:60-75 | If every stored entry has a non-whitespace character, this still holds after an input change and after a submission. |
| `StreamList.StreamListForm.constructor` | App.js:61-62 | The component mounts with an empty buffer and an empty list. |
| `StreamList.StreamListForm.HandleInputChange` | App.js:64-66 | The new state is `InputChanged` of the old state, and the entries-have-content invariant is kept. |
| `StreamList.StreamListForm.HandleSubmit` | App.js:68-75 | The new state is `Submitted` of the old state, and the entries-have-content invariant is kept. |

## Left out

- Rendering is not modelled: JSX, CSS class strings, the lucide icons and the three static placeholder pages (App.js:77-199). A page is an opaque `View` value.
- React context, hooks and `React.Children.toArray` are replaced by explicit values. The route table is a `seq<Route>`, and the navigation state is a `BrowserRouter` object that callers hold.
- The read of `window.location.pathname` is browser I/O. The pathname is a constructor parameter.
- React's render scheduling is not modelled at all: when and whether a state update re-renders the components that read it.
- `window.history.pushState` is commented out in the source and is not modelled.
- `console.log` and `e.preventDefault()` in `handleSubmit` are side effects only and are not modelled.
- The Enter-key handler (App.js:89) calls the same `handleSubmit`, so it adds nothing beyond `HandleSubmit`.
- `StreamListForm` models one mount of the page. Navigating away from `"/"` unmounts it, and coming back mounts a new one with an empty buffer and list. Mounting and unmounting are not modelled.
- IsWhitespace: the Zs (space separator) category is taken as in Unicode 15. A character added to Zs by a later Unicode version is not counted as whitespace. Dafny characters are Unicode scalar values, so unpaired UTF-16 surrogates are not modelled.
