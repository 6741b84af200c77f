# Order Portal client: the order-list state machine

This project models the state held by the `App` component of the Order Portal
web client (`src/App.js`) and the event handlers that change it. The component
keeps a session token, a local cache of the user's orders, and the state of
two inline editors (priority and message). It keeps the cache in step with a
remote REST backend.

- `OrderList` (`order_list.dfy`) holds the `Order` record. It also holds the
  pure list transformations the handlers apply:
  - the normalisation of the `GET /orders` body (a bare array, an object with
    an `orders` field, or `null`);
  - the `filter` used by delete;
  - the `map`-with-spread used by the two editors.

  Its lemmas cover what each transformation keeps and what it changes. The
  filter and the patch keep the cache keyed by `_id`, and an append keeps it
  when the new `_id` is absent. Three lemmas restate the effect of append,
  delete and patch through an independent observer, `Lookup`, the order the
  list holds under an `_id`.
- `OrderForm` (`order_form.dfy`) covers the submit form. It models ECMAScript's
  `String.prototype.trim`, using the exact set of white-space and
  line-terminator characters that the language standard defines. It also
  models the guard that decides whether a submit dispatches `addOrder`.
- `OrderApp` (`order_store.dfy`) holds the class `OrderStore`. It has one field
  per `useState` hook and one method per handler. Every method states the
  whole new state.
- `Scenarios` (`scenarios.dfy`) holds four client walk-throughs that use only
  the contracts: a load from a stored token, a create, a submit the guard
  rejects, and an edit with a failed save followed by delete and logout.

Each network exchange is a parameter `Exchange<T> = Threw | Returned(body)`.
`Threw` is the handler's `catch` path and changes nothing. `fetch` does not
reject on an HTTP error status, so `Returned` also covers 4xx and 5xx replies.
The local change is applied in that case too. For `addOrder` this means that
whatever body the backend returns is appended as an order.

Two behaviours of the code are easy to misread. The model follows the code
in both:
- A failed priority or message save does not close the editor.
  `setEditingPriorityId(null)` and `setNewPriority("")` (and the message
  counterparts) come after the `await` inside the `try`. A throw skips them,
  so the editor stays open with its draft. `UpdatePriority` and
  `UpdateMessage` state this.
- A failed create still clears the form. `e.target.reset()` runs right after
  `addOrder` is dispatched, before its outcome is known. In `SubmitForm`,
  `request.Some?` marks both the dispatch and the form reset that follows it.

## Model

| member | source | states |
|---|---|---|
| OrderList.Normalise | src/App.js:26-30 | the list expression throws (no new list) exactly on a `null` body; an object without a truthy `orders` field yields the empty list |
| OrderList.NormaliseShapesAgree | src/App.js:27 | a bare array and the same array wrapped under `orders` normalise to that same array |
| OrderList.Lookup | src/App.js:213-215 | the first entry carrying `_id` (the identity the list keys its rows by): found exactly when some entry carries that `_id`; the one found carries it and no earlier entry does |
| OrderList.HasIdAt | src/App.js:71 | the recursive "some entry carries this `_id`" predicate agrees with "some index carries this `_id`" |
| OrderList.RemoveId | src/App.js:71 | the filtered list is no longer than the input and no entry of it has `_id == id` |
| OrderList.RemoveIdAbsent | src/App.js:71 | when no entry carries `id`, the filter returns the list unchanged |
| OrderList.RemoveIdMembers | src/App.js:71 | an order survives the filter exactly when it was in the list and its `_id` differs from `id` |
| OrderList.RemoveIdConcat | src/App.js:71 | the filter distributes over concatenation, so survivors keep their relative order |
| OrderList.RemoveSingle | src/App.js:71 | deleting an id that occurs once removes just that entry; the entries before and after it stay, in order |
| OrderList.UniqueAt | src/App.js:71 | in a list with unique `_id`s, the id at index k occurs neither before nor after k |
| OrderList.RemoveUniqueAt | src/App.js:71 | with unique `_id`s, deleting the id at index k removes exactly that one entry and keeps the entries before and after it in order |
| OrderList.RemoveIdKeepsUnique | src/App.js:71 | deleting keeps the cache keyed by `_id` |
| OrderList.AppendKeepsUnique | src/App.js:59 | appending an order whose `_id` is new keeps the cache keyed by `_id` |
| OrderList.LookupAfterAppend | src/App.js:59 | after appending an order with a new `_id`, that id finds the new order and every id already present finds what it found before |
| OrderList.LookupAfterRemove | src/App.js:71 | after a delete, the deleted id finds nothing and every other id finds what it found before |
| OrderList.Apply | src/App.js:89 | a priority patch sets only `priority` and a message patch sets only `message`; `_id`, product name, quantity and the other field are identical |
| OrderList.Patch | src/App.js:87-91 | length and every `_id` are kept; entries with the matching `_id` are patched and all other entries are untouched |
| OrderList.PatchKeepsUnique | src/App.js:109-113 | a patch keeps the cache keyed by `_id` |
| OrderList.LookupAfterPatch | src/App.js:88-90 | after a patch, the patched id finds its order with the patch applied and every other id finds what it found before |
| OrderList.PatchIdempotent | src/App.js:110-112 | applying the same patch twice gives the same list as applying it once |
| OrderForm.IsJsSpace | src/App.js:141 | among ASCII characters, exactly space, tab, line feed, carriage return, vertical tab and form feed are white space; the zero-width space U+200B is not |
| OrderForm.SkipSpace | src/App.js:141 | the scan stops at the first non-white-space character at or after its start, or at the end; everything it skipped is white space |
| OrderForm.SkipSpaceBack | src/App.js:144 | the backward scan stops just after the last non-white-space character before its start, or at 0; everything it skipped is white space |
| OrderForm.TrimStart | src/App.js:141 | the result is a suffix of the input, all it cut off is white space, and it does not start with white space |
| OrderForm.TrimEnd | src/App.js:144 | the result is a prefix of the input, all it cut off is white space, and it does not end with white space |
| OrderForm.Trim | src/App.js:141-144 | `.trim()` is no longer than its input, and a non-empty result neither starts nor ends with white space |
| OrderForm.TrimIsMiddle | src/App.js:141-144 | `trim` returns a contiguous middle of its input, and what it cuts off on either side is all white space |
| OrderForm.TrimEmptyIff | src/App.js:146 | the trimmed product name is falsy exactly when every character of the input is white space |
| OrderForm.TrimIdempotent | src/App.js:144 | trimming an already trimmed string changes nothing |
| OrderForm.SubmitGuard | src/App.js:141-147 | a request is dispatched exactly when the name has a non-white-space character and the quantity parses to a number > 0; it carries the trimmed name, that quantity, the priority as given and the trimmed message |
| OrderApp.Truthy | src/App.js:292 | an optional string is truthy exactly when it holds a non-empty string, so `message \|\| ""` is the message with `""` for a missing one |
| OrderApp.OrderStore.ShowsMainView | src/App.js:328 | the `/` route shows the portal exactly when the token is non-empty |
| OrderApp.OrderStore.constructor | src/App.js:12-17 | the token is the stored one or `""`, the list is empty, both editors are closed with empty drafts |
| OrderApp.OrderStore.SetToken | src/App.js:324 | only the token changes |
| OrderApp.OrderStore.LoadOrders | src/App.js:21-35 | with a non-empty token, a non-null body replaces the list with its normalisation; a throw, a `null` body or an empty token leave the list as it was; token and editors never change |
| OrderApp.OrderStore.Logout | src/App.js:37-41 | the token becomes `""` and the list `[]` whatever they held; the editors and drafts are unchanged |
| OrderApp.OrderStore.AddOrder | src/App.js:43-63 | on a returned body the list is the old list plus that body: one longer, old prefix kept; on a throw nothing changes |
| OrderApp.OrderStore.DeleteOrder | src/App.js:65-75 | on a returned exchange the list is the filtered old list; on a throw nothing changes; token and editors never change |
| OrderApp.OrderStore.UpdatePriority | src/App.js:77-97 | on a returned exchange matching entries take the draft priority and the priority editor closes with an empty draft; on a throw list and editors are exactly as before |
| OrderApp.OrderStore.UpdateMessage | src/App.js:99-119 | on a returned exchange matching entries take the draft message and the message editor closes with an empty draft; on a throw list and editors are exactly as before |
| OrderApp.OrderStore.StartPriorityEdit | src/App.js:252-255 | the priority editor opens on the order's `_id` with its priority as draft; nothing else changes |
| OrderApp.OrderStore.CancelPriorityEdit | src/App.js:242 | only the priority editor's id is cleared; the draft is kept |
| OrderApp.OrderStore.ChangePriorityDraft | src/App.js:227 | only the priority draft changes |
| OrderApp.OrderStore.StartMessageEdit | src/App.js:290-293 | the message editor opens on the order's `_id` with its message as draft, or `""` when the message is falsy; the priority editor is untouched |
| OrderApp.OrderStore.CancelMessageEdit | src/App.js:279 | only the message editor's id is cleared; the draft is kept |
| OrderApp.OrderStore.ChangeMessageDraft | src/App.js:267 | only the message draft changes |
| OrderApp.OrderStore.SubmitForm | src/App.js:139-150 | the request sent is the guard's verdict; when the guard fails nothing changes; when it passes the list grows by the returned body, or stays as it was on a throw |

## Left out

- HTTP transport, URLs, headers, the bearer header and JSON (de)serialisation are not modelled. Each exchange is a `Threw` or `Returned` parameter. The `OrderRequest` that `SubmitForm` returns stands for the body of the `POST`.
- Apply, Patch: an order holds only its five modelled fields. `{ ...order, priority }` and `{ ...order, message }` keep every other field the backend sent too, but the "all other fields identical" frame covers only the five modelled ones.
- The form's field values are DOM state and are not modelled. The reset at src/App.js:148 is not represented; only `request.Some?` marks when it happens.
- The `console.error` logging on each `catch` path is I/O and is not modelled.
- `localStorage` is browser persistence. Reading it is the constructor's `stored` parameter. The `removeItem` on logout is not modelled.
- When the token effect runs is not modelled. React re-runs it only when `token` changes. `LoadOrders` models one run of its body, and the caller decides when that happens.
- Login and Signup, the views that obtain a token, are not part of this model. `SetToken` stands for the setter passed to Login.
- JSX rendering, styling and routes are UI and are not modelled, except `ShowsMainView`.
- Async interleaving and React's stale closures are not modelled; each handler is one atomic step. In the code, `addOrder` and `deleteOrder` act on the `orders` captured at render time, while the patches act on the latest `prev`.
- `parseInt` is not modelled. Its result is an `Option<int>`, where `None` stands for `NaN`.
- LoadOrders: a truthy `orders` field that is not an array would be stored as the list. The model's `Obj` carries only an array or no usable field.
- The default arguments of `addOrder` (`priority = "low"`, `message = ""`) are not modelled, because the form always passes all four arguments.
- Uniqueness of `_id` is not a class invariant, because nothing in the code enforces it. The `...KeepsUnique` lemmas show which operations preserve it and under what condition.
