# Shopping list: item endpoints and page state, in Dafny

This project models the two pieces of list logic in a small shopping-list web
application and proves what they promise.

- **The item endpoints of the API** (`backend/main.py`): add, remove, toggle
  and the defaults catalog. Add, remove and toggle each load the stored list
  of item records, transform it and may save it again. Here the loaded list
  is a parameter, and the list handed to the save step is part of the result
  (`None` when nothing is saved). The defaults endpoint neither loads nor
  saves; it answers with a fixed catalog. Module `Backend`, file `backend.dfy`.
- **The page's state** (`frontend/app/page.tsx`): a class `Page.Home` whose
  fields are the page's state. These are the item list, the add form
  (`newItem`), `loading`, the error banner, the last acted-upon row and the
  pending scroll target. Its methods are the page's handlers. The outcome of
  every request is a parameter of the handler. The requests a handler issues
  are appended, in order, to the field `sent`. The field `itemsRenewed`
  stands for the layout effect's dependency on `items`: it is set whenever
  `items` is replaced, and the layout effect consumes it.
  `Page.Home.LayoutEffect` stands for the render commit that follows each
  handler: it is meant to be called after every handler, so that
  `itemsRenewed` never carries over from one handler to the next. Module
  `Page`, file `page.dfy`.

Shared pieces:

- `items.dfy` holds the add request (`Draft`), the served item (`Item`) and
  the request defaults.
- `seqs.dfy` holds an order-preserving filter and map, with their lemmas.
- `sync.dfy` relates the page's locally updated list to what a reload of the
  stored records would show.

The model keeps these behaviours of the code:

- Item ids are not unique. An add numbers the new item `len(items) + 1`, so
  after a removal it can hand out an id that is still stored
  (`Backend.IdReusedAfterRemove`).
- The page flips `completed` on every item with the id. The endpoint flips
  only the first match. With a shared id the two drift apart
  (`Sync.IdReuseMakesToggleDrift`).
- A successful list load does not clear the banner.
- The pending scroll target is consumed only when `items` changes. After a
  failed remove or toggle it stays pending until the next change of the
  list.
- The remove and toggle buttons are never disabled. While `loading` is true
  they are hidden instead, because the whole list is not rendered then.

## Model

| member | source | states |
|---|---|---|
| `Backend.AddItem` | backend/main.py:88-106 | The new item gets id = old length + 1, is not completed, is stamped with the given time and copies name, quantity, category and emoji from the request. The saved list is the old list with exactly one record appended, and the earlier records are unchanged. |
| `Backend.ServedAsRecord` | backend/main.py:82-86 | A record written by add reads back through the list endpoint as the same item. |
| `Backend.RemoveItem` | backend/main.py:108-121 | The reply is 404 exactly when no record carries the id, and then nothing is saved. Otherwise the saved list is the stored list filtered by "id differs" (`Kept`), so it holds exactly the stored records without the id, with their multiplicity and relative order. |
| `Seqs.FilterConcat` | backend/main.py:115 | The removal filter keeps the surviving records in their relative order: it distributes over concatenation. |
| `Seqs.FilterKeepsAllIff` | backend/main.py:114-117 | The length is unchanged exactly when every record is kept, and then the list itself is unchanged. This is what makes the length test a "not found" test. |
| `Seqs.Filter` | backend/main.py:115 | A filter never grows the list, and it keeps exactly the elements that satisfy the condition. |
| `Backend.RemoveTwiceNotFound` | backend/main.py:114-118 | Removing the same id again after a successful removal answers 404. |
| `Backend.RemoveUndoesAdd` | backend/main.py:88-121 | If no stored record already carries the id an add hands out, removing that id succeeds and restores the stored list. |
| `Backend.IdReusedAfterRemove` | backend/main.py:91-115 | From records with ids 1 and 2, removing 1 leaves the second record, and the next add gives the new item id 2 again. |
| `Backend.FirstMatch` | backend/main.py:128-129 | Finds the position of the first record with the id, with every earlier record not matching. It gives no position exactly when no record matches. |
| `Backend.ToggleItem` | backend/main.py:123-134 | Without a match the reply is 404 and nothing is saved. Otherwise the saved list is the stored list with the first match flipped, and the reply carries the negated effective flag. |
| `Backend.ToggleFlipsFirstMatchOnly` | backend/main.py:128-132 | A toggle keeps the length. It negates the effective flag of the first match, where a missing flag counts as false. Every other field of that record and every other record stay unchanged. With no match the list is unchanged. |
| `Backend.ToggleTwice` | backend/main.py:130 | Toggling an id twice restores every effective flag and every other field. The list comes back exactly when the flipped record had a `completed` key. |
| `Backend.DefaultItemsShape` | backend/main.py:136-149 | The catalog holds 8 drafts with distinct names and positive quantities. |
| `Page.Trim` | frontend/app/page.tsx:65 | The trimmed name is empty exactly when the name is all white space. |
| `Page.QuantityInput` | frontend/app/page.tsx:189 | The quantity field never holds 0. Not-a-number and 0 fall back to 1. Any other parsed value, negative ones included, is kept. |
| `Page.WithoutItemSpec` | frontend/app/page.tsx:87 | The page's removal drops exactly the items with the id and keeps the others in order. With no such item the list is unchanged. |
| `Page.WithToggledSpec` | frontend/app/page.tsx:104-106 | The page's toggle keeps the length, the order and every field but `completed`. It negates `completed` on every item with the id and on no other. |
| `Page.WithToggledTwice` | frontend/app/page.tsx:104-106 | Toggling the same id twice on the page restores the list. |
| `Page.FirstRejected` | frontend/app/page.tsx:124-126 | Finds the first failed post, with every earlier post accepted. It finds none exactly when every post is accepted. |
| `Page.Home.constructor` | frontend/app/page.tsx:27-37 | The page starts with an empty list, the blank form, no banner, not loading and both row slots empty. |
| `Page.Home.LayoutEffect` | frontend/app/page.tsx:39-44 | The effect runs only after `items` changed. It then scrolls the pending row, if any, into view and clears the slot. Otherwise it does nothing. |
| `Page.Home.LoadShoppingList` | frontend/app/page.tsx:51-62 | On success `items` is replaced wholesale and the banner is left as it was. On failure `items` is kept and the load message is shown. `loading` ends false. |
| `Page.Home.AddItem` | frontend/app/page.tsx:64-79 | A blank name changes nothing and sends nothing. Otherwise the form is posted. Success appends the server's item, resets the form and clears the banner. Failure keeps list and form and shows the add message. `loading` ends false. |
| `Page.Home.RemoveItem` | frontend/app/page.tsx:81-96 | Success filters out every item with the id and clears the banner. Failure keeps the list and shows the remove message. A row found on screen becomes the last acted-upon row, and the last acted-upon row, if any, is queued for scrolling. `loading` ends false. |
| `Page.Home.ToggleItem` | frontend/app/page.tsx:98-115 | Success flips every item with the id and clears the banner. Failure keeps the list and shows the toggle message. The row bookkeeping is that of remove. `loading` ends false. |
| `Page.Home.PostDrafts` | frontend/app/page.tsx:124-126 | The drafts are posted strictly in catalog order, and each post is issued only after every earlier one was accepted. Posting stops right after the first rejected post, and that post is reported. |
| `Page.Home.LoadDefaults` | frontend/app/page.tsx:117-137 | A failed catalog request or a rejected post shows the defaults message, leaves the list as it was and skips the reload; accepted posts are not undone. If all posts are accepted, one list reload follows and the banner ends empty even when that reload failed. `loading` ends false. |
| `Page.Home.EditName` | frontend/app/page.tsx:177 | Typing a name changes only the form's name. |
| `Page.Home.EditQuantity` | frontend/app/page.tsx:189 | The quantity field stores the parsed number with its fallback and changes nothing else. |
| `Page.Home.EditCategory` | frontend/app/page.tsx:200 | Choosing a category changes only the form's category. |
| `Page.Home.EditEmoji` | frontend/app/page.tsx:218 | Choosing an emoji changes only the form's emoji. |
| `Sync.AddStaysInSync` | frontend/app/page.tsx:69-70 | Appending the add endpoint's answer gives what a reload of the saved list would show. |
| `Sync.RemoveStaysInSync` | frontend/app/page.tsx:87 | The page's removal agrees with the endpoint's for every stored list, duplicated ids included. |
| `Sync.RemovedIdGoneAfterReload` | backend/main.py:114-120 | After a successful removal, a reload shows no item with that id. |
| `Sync.ToggleStaysInSyncWhenIdUnique` | frontend/app/page.tsx:104-106 | The page's toggle agrees with the endpoint's when at most one stored record carries the id. |
| `Sync.IdReuseMakesToggleDrift` | backend/main.py:94 | After a remove and an add, the two stored records share an id. A toggle of that id then flips only the first record on the server but both items on the page, so the server's list and the page's list differ. |
| `Sync.MilkScenario` | backend/main.py:93-101 | Adding Milk (2, dairy) to an empty list creates item 1, not completed. A toggle completes it in place, and a removal empties the list, on the server and on the page alike. |
| `Sync.CatalogFitsForm` | backend/main.py:139-148 | Every catalog draft has a non-blank name, a quantity the field keeps, and a category and emoji that the form offers. |
| `Sync.BlankDraftIsRequestDefaults` | frontend/app/page.tsx:28-33 | The page's blank form is the add request with an empty name and the request's default quantity, category and emoji. |

## Left out

- File storage: reading and writing the JSON file, and the swallowed I/O errors (a failed load reads as an empty list, a failed save is ignored), are not modelled. The stored list is a parameter, and the saved list is a result.
- The clock: `datetime.now()` becomes the parameter `now`.
- The web framework: routing, CORS, request validation (a malformed body or id is rejected before the endpoint runs), the root and health endpoints and server start-up.
- The list endpoint appears only as the conversion `Backend.Served`. A stored record missing a key other than `id`, `completed` or `added_at` is not modelled.
- The API proxy routes under `frontend/pages/api/` are pass-throughs, and the readme page is static content; neither is part of this model.
- Rendering, styling, the network library and console logging are not modelled. Every request outcome is a handler parameter.
- The element lookup by DOM id becomes the flag `rowShown`. Scrolling becomes the handle that `Page.Home.LayoutEffect` returns.
- A `Page.Handle` stands for the row node captured when the handler started, not for a row drawn later with the same id. The render while `loading` is true removes the whole list, so by the time the layout effect scrolls to the captured node it is detached and the scroll has no visible effect. The model records which node is scrolled, not whether the scroll is visible.
- Page.Home.EditQuantity: the number parser itself is not modelled. Its result is the parameter `parsed` (`None` for not-a-number).
- The mount effect that loads the list once is `Page.Home.LoadShoppingList` called on a fresh page; it is not a separate member.
- Concurrency: every handler runs to completion, one at a time. Overlapping handlers and stale closures over `items` are outside this sequential model. So is the disabling of the add and defaults buttons while `loading`; `loading` is always false between handlers.
- Page.Home.LoadDefaults: the catalog reply is taken to be a list of drafts. A reply of another shape is not modelled.
