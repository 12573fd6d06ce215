# Food-ordering webhook: intent handling

A Dafny model of the intent-handling logic of a webhook for a conversational
food-ordering agent (`backend/main.py`). The dialogue platform posts a request
carrying the detected intent, its slot parameters and a list of output
contexts; the webhook

- extracts the conversation's session id from the context names, which look
  like `projects/.../agent/sessions/{session_id}/contexts/{ctx_name}`;
- routes on the intent's display name, compared for exact equality with
  `order.add`, `order.remove` and `track.order - context: ongoing-tracking`;
- in the add handler, normalises the `food` and `quantity` slots to lists,
  pairs items and quantities by position (a missing quantity is 1) and echoes
  them back;
- in the remove handler, echoes the named items back;
- in the track handler, resolves an order id from the `number` or `order_id`
  slot and reports the status that the order-status query returns;
- answers any other intent with a fallback message that names it.

The add and remove handlers are stubs in the code: they keep no basket and
only echo the request.

Modules:

- `Wrappers` (`wrappers.dfy`): Option.
- `PyStr` (`pystr.dfy`): the Python built-ins the code uses on strings and
  lists: `str.split` with a one-character separator, `str.join`,
  `in`/`list.index`, `str()` of an integer. The split/join round trips are
  proved in both directions.
- `PyValue` (`pyvalue.dfy`): the loosely typed slot values
  (`Value = Null | Str | Int | List`), Python truthiness (`Truthy`: None, `""`,
  `0` and `[]` are falsy), `or`, `dict.get`, `str()`/`repr()`, and
  `str.join` on values that may not be strings (TypeError).
- `Webhook` (`webhook.dfy`): the handlers and the router.
  `extract_session_id` and `handle_order_add` are methods with loops, proved
  equal to the specification functions `SessionIdOf` and `AddResponse`. The
  remove and track handlers are functions. The router (`HandleWebhook`) is a
  method because it calls the two methods.

The order-status query (`get_order_status` in `backend/db_helper.py`) is the
parameter `lookup: Value -> Option<string>` of the track handler and the
router. It is an arbitrary total function, so every property proved holds
for any status the query returns (its failures are listed under "Left out").

Behaviour of the code that is easy to misread:

- The code keeps no per-session basket. It has no "complete" intent and no
  `ongoing-order` follow-up context.
- A missing session id is not an error. The add and remove replies print it
  as `None` (see `AddOneFoodWithoutQuantity`).
- The order id is not converted to an integer. The status query is annotated
  `order_id: int` (backend/db_helper.py:14), but nothing enforces it: whatever
  value the slot holds is passed to the query, so `lookup` takes a `Value`.
- The remove handler can raise an exception: if any food item is not a
  string, `", ".join(items)` raises a TypeError. The model returns the
  `TypeError` response in that case.

## Model

| member | source | states |
|---|---|---|
| `PyStr.Split` | backend/main.py:41 | `s.split("/")` always has at least one piece, and no piece contains the separator |
| `PyStr.JoinSplit` | backend/main.py:41 | joining the pieces of a split with the separator gives the original string back |
| `PyStr.SplitJoin` | backend/main.py:41 | splitting a join of one or more separator-free pieces gives the pieces back |
| `PyStr.IndexOf` | backend/main.py:42-43 | `"sessions" in parts` holds exactly when the index exists; the index is the first occurrence |
| `PyStr.Join` | backend/main.py:78 | `sep.join(parts)` is empty for no parts, begins with the first part, and is as long as all parts plus one separator between each two neighbours |
| `PyStr.NatToString` | backend/main.py:75 | `str()` of a non-negative number is its decimal digits: at least one, no leading zero, and read by Horner's rule (`DigitsValue`) they give the number back |
| `PyStr.IntToString` | backend/main.py:75 | `str()` of a negative number is `-` followed by `NatToString` of its absolute value, so its digits spell that value with no leading zero; of any other number, `NatToString` |
| `PyValue.Truthy` | backend/main.py:65 | Python truthiness as `elif raw_food:` tests it (and lines 69, 93, 108 and 109 likewise): exactly None, `""`, `0` and `[]` are falsy |
| `PyValue.Or` | backend/main.py:108 | `a or b` is `a` when `a` is truthy and `b` otherwise; it is truthy iff either operand is |
| `PyValue.Get` | backend/main.py:60-61 | `dict.get` gives None for a missing key and the stored value otherwise |
| `PyValue.Repr` | backend/main.py:75 | `repr()`: None is `None`, a string is single-quoted, an integer is `str()` of it, a list is its element reprs inside `[` and `]` |
| `PyValue.ReprItems` | backend/main.py:75 | the inside of a list's repr is empty iff the list is, and begins with the repr of the first element |
| `PyValue.ReprItemsJoin` | backend/main.py:75 | the inside of a list's repr is `", ".join` of the element reprs |
| `PyValue.Show` | backend/main.py:119 | what an f-string inserts for `{v}`: a string as it is, anything else as its repr |
| `PyValue.JoinValues` | backend/main.py:98 | `", ".join(items)` succeeds iff every item is a string, and then it joins those strings |
| `Webhook.ContextSessionId` | backend/main.py:41-46 | a context name yields the segment right after its first `sessions` segment; there is none iff no `sessions` segment has a segment after it; the id never contains `/` |
| `Webhook.ContextSessionIdAt` | backend/main.py:42-46 | wherever the first `sessions` segment is followed by another segment, that segment is the id |
| `Webhook.DialogflowContextName` | backend/main.py:33-36 | a name whose `/`-segments are `prefix`, `sessions`, `{id}` and then any others, with no `sessions` in `prefix`, yields exactly `{id}` (by `PyStr.SplitJoin`, the `/`-join of separator-free segments is such a name) |
| `Webhook.EmptySessionId` | backend/main.py:45-46 | the id may be the empty string: `sessions/` yields `""` |
| `Webhook.FirstSessionId` | backend/main.py:40-47 | the contexts are tried in order: none gives no id; an id found never contains `/`; when the first context carries an id, that id is the result |
| `Webhook.SessionIdOf` | backend/main.py:38-39 | a missing or empty context list yields no session id |
| `Webhook.FirstSessionIdNone` | backend/main.py:40-47 | no session id is found exactly when no context carries one |
| `Webhook.FirstSessionIdIsEarliest` | backend/main.py:40-47 | a session id that is found comes from the earliest context carrying one; all contexts before it carry none and are skipped |
| `Webhook.ExtractSessionId` | backend/main.py:32-47 | the loop with early return computes `SessionIdOf` of the contexts |
| `Webhook.Normalize` | backend/main.py:62-70 | a list slot is kept as it is; a scalar becomes a list holding at most itself; the list is empty iff the value is falsy |
| `Webhook.ShowSessionId` | backend/main.py:78 | `{session_id}` in the f-string is `str()` of the optional id: `None` when there is none, the id itself otherwise |
| `Webhook.QuantityAt` | backend/main.py:74 | the quantity of item `i` is `qtys[i]` when the quantity list is long enough, and 1 otherwise |
| `Webhook.PartText` | backend/main.py:75 | a part `{q} x {item}` is exactly as long as the two values' `str()` and the three characters ` x ` |
| `Webhook.PartTextShape` | backend/main.py:75 | a part begins with `str()` of the quantity and ` x `, and ends with `str()` of the item |
| `Webhook.AddParts` | backend/main.py:72-75 | one part per item, in order; part `i` is `{q} x {item}` with the quantity at position `i`, or 1 when the quantity list is shorter |
| `Webhook.AddPartsIgnoresExtraQuantities` | backend/main.py:72-75 | quantities beyond the number of items do not change the parts |
| `Webhook.AddPartsDefaultsToOne` | backend/main.py:73-74 | padding the quantity list with 1s does not change the parts, so a missing quantity counts as 1 |
| `Webhook.AddText` | backend/main.py:77-81 | without items the reply is the fixed re-prompt; with items it begins with `Added to your order ({sid}): ` and ends with the parts joined with `", "` |
| `Webhook.AddResponse` | backend/main.py:60-82 | handle_order_add always fulfils, and it re-prompts exactly when the `food` slot is missing or falsy |
| `Webhook.AddTextConfirmsIffItems` | backend/main.py:77-82 | the add reply starts with `Added to your order (` iff there is an item; with no items it is the fixed re-prompt, whatever the session id; otherwise it is the prefix, the session id and the parts joined with `", "` |
| `Webhook.AddResponseScalarAsList` | backend/main.py:63-66 | a truthy scalar `food` slot gives the same reply as the one-item list holding it |
| `Webhook.AddTwoFoods` | backend/main.py:50-55 | the documented request `food: [Burger, Fries]`, `quantity: [2, 1]` gets `Added to your order (abc): 2 x Burger, 1 x Fries` |
| `Webhook.TwoFoodsSlots` | backend/main.py:60-70 | that request's slots normalise to the lists they hold |
| `Webhook.TwoFoodsText` | backend/main.py:77-78 | that request's reply text, with session id `abc` |
| `Webhook.TwoFoodsJoined` | backend/main.py:72-78 | the parts of that request, joined, are `2 x Burger, 1 x Fries` |
| `Webhook.TwoFoodsParts` | backend/main.py:72-75 | the parts of that request are `2 x Burger` and `1 x Fries` |
| `Webhook.AddOneFoodWithoutQuantity` | backend/main.py:65-81 | a single food with no quantity slot and no session id gets `Added to your order (None): 1 x Pizza` |
| `Webhook.OnePizzaSlots` | backend/main.py:60-70 | a scalar `food` slot and a missing `quantity` slot normalise to a one-item list and the empty list |
| `Webhook.OnePizzaText` | backend/main.py:77-78 | the reply text for that request, printing the missing session id as `None` |
| `Webhook.OnePizzaPart` | backend/main.py:73-75 | a single item without a quantity gives the one part `1 x Pizza` |
| `Webhook.HandleOrderAdd` | backend/main.py:50-82 | the normalisation and the loop that appends one part per item compute `AddResponse` |
| `Webhook.RemoveResponse` | backend/main.py:85-102 | no items give the fixed re-prompt; all-string items give `Removed from your order ({sid}): ` and the items joined with `", "`; the response is a TypeError iff some item is not a string |
| `Webhook.RemoveReportsAnyItem` | backend/main.py:90-98 | any non-empty food name is reported as removed, with nothing checked against an order |
| `Webhook.ResolveOrderId` | backend/main.py:108-112 | a truthy `number` slot is used, and its first element if it is a list; otherwise the `order_id` slot, and its first element if it is a non-empty list |
| `Webhook.NumberTakesPrecedence` | backend/main.py:108 | when `number` is truthy, the `order_id` slot does not affect the resolved id |
| `Webhook.TrackResponse` | backend/main.py:104-121 | no id gives the re-prompt; a truthy status gives `Status for order {id}: {status}`; otherwise `No tracking information found for order ID {id}.`; the handler raises nothing itself |
| `Webhook.StatusTruthy` | backend/main.py:118 | `if status:` holds exactly when the query returned a string and that string is truthy (non-empty) |
| `Webhook.StatusText` | backend/main.py:119 | the status reply begins with `Status for order {id}: `, ends with the status, and is exactly as long as those two, so nothing else is in it |
| `Webhook.NoTrackingText` | backend/main.py:121 | the no-tracking reply begins with `No tracking information found for order ID ` and ends with `{id}.`, and is exactly as long as those two |
| `Webhook.TrackPromptIffNoId` | backend/main.py:114-121 | the re-prompt comes exactly when no id resolves |
| `Webhook.TrackWithoutIdSkipsLookup` | backend/main.py:114-117 | without an id the reply is the same for every status lookup, so the lookup is not consulted |
| `Webhook.TrackConsultsLookupAtIdOnly` | backend/main.py:117-121 | two lookups that agree at the resolved id give the same reply |
| `Webhook.FallbackText` | backend/main.py:142 | the fallback begins with ``Sorry, I don't know how to handle ` `` and ends with the intent name, a backquote and a full stop, and is exactly as long as those two |
| `Webhook.HandleWebhook` | backend/main.py:129-142 | an exact match on one of the three intent names gives that handler's response, using the session id extracted from the contexts; any other name, a missing one included, gives only the fallback naming it, which depends on nothing else |

## Left out

- The FastAPI application, request parsing and validation (pydantic), the
  asynchronous `req.json()` and the uvicorn startup (backend/main.py:1-28,
  124-127, 145-146). These are framework and I/O. A request is modelled as the
  intent object, the parameters and the optional list of context names.
- `backend/db_helper.py`. `get_order_status` opens a MySQL connection and runs
  a query, so it is the abstract `lookup` parameter. `save_to_db` is never
  called from the modelled code; it uses SQL `LIKE` matching done by the
  database and floating-point totals. `DB_CONFIG` reads environment variables.
  The debug printing is left out too.
- `Webhook.TrackResponse`: the status query is modelled as a total function.
  Its failures are not modelled: a MySQL connection error, or an id the driver
  cannot bind (such as the `[]` that an empty `order_id` list leaves). An
  exception escaping the call at backend/main.py:117 is therefore not captured.
- Slot values that are floats, booleans or JSON objects. Dialogflow commonly
  sends numbers as floats (`2.0`), and Python prints those as `2.0`. The model
  only has integers, so it does not capture that formatting.
- `PyValue.Repr`: Python's `repr` of a string is modelled as the string in
  single quotes, without Python's choice of quote character or its escaping.
  This only matters when a list value is printed inside a reply.
- `Webhook.RemoveResponse`: Python's TypeError message (which item, which
  type) is not modelled; only the fact that the exception is raised.
- Concurrency: the modelled code shares no state between requests.
- The per-session basket, the "complete" intent, the catalog lookup, the order
  ledger and the `ongoing-order` follow-up context do not exist in the
  modelled code (the add and remove handlers are stubs), so they are not
  modelled.
