/**
 * The intent-handling logic of the food-ordering webhook (backend/main.py):
 * extracting the conversation's session id from the output contexts,
 * normalising the `food` and `quantity` slots, building the replies of the
 * add, remove and track handlers, and routing on the intent's display name.
 *
 * The order-status query is the parameter `lookup`, an arbitrary function
 * from the resolved order id to the stored status (None for no row).
 */
module Webhook {
  import opened Wrappers
  import opened PyValue
  import PyStr

  /** An output context of the request; only its path-like name is used. */
  datatype Context = Context(name: string)

  /** The parts of a webhook request the router reads: the `intent` object
      (looked up for "displayName"), the slot parameters and the optional
      list of output contexts. */
  datatype Request = Request(
    intent: map<string, Value>,
    parameters: map<string, Value>,
    outputContexts: Option<seq<Context>>)

  /** What a handler produces: the body `{"fulfillmentText": text}`, or the
      TypeError that Python raises while building it. */
  datatype Response = Fulfillment(text: string) | TypeError

  const AddIntent := "order.add"
  const RemoveIntent := "order.remove"
  const TrackIntent := "track.order - context: ongoing-tracking"

  // The re-prompts are written in two pieces: the proofs that tell the
  // replies apart by their first character need the individual characters
  // of each literal, and the verifier does not unfold those of a long one.
  const AddPrompt := "I didn't catch what you'd like " + "to add. Can you repeat?"
  const RemovePrompt := "I didn't catch which item " + "to remove. Please specify."
  const TrackPrompt := "I didn't catch your order ID. " + "Could you please repeat it?"

  const AddedPrefix := "Added to your order ("
  const RemovedPrefix := "Removed from your order ("

  /** What an f-string inserts for an optional session id. */
  function ShowSessionId(sessionId: Option<string>): (r: string)
    ensures sessionId.None? ==> r == Show(Null)
    ensures sessionId.Some? ==> r == Show(Str(sessionId.value))
  {
    match sessionId
    case None => "None"
    case Some(s) => s
  }

  predicate StartsWith(s: string, prefix: string)
  {
    |prefix| <= |s| && s[..|prefix|] == prefix
  }

  predicate EndsWith(s: string, suffix: string)
  {
    |suffix| <= |s| && s[|s| - |suffix|..] == suffix
  }

  // ---------------------------------------------------------------------
  // Session-id extraction
  // ---------------------------------------------------------------------

  /** The '/'-separated segments of a context name. */
  function Segments(name: string): (parts: seq<string>)
    ensures |parts| >= 1
  {
    PyStr.Split(name, '/')
  }

  /** The first "sessions" segment of `parts` is at `i`, and a segment
      follows it. */
  predicate SessionsAt(parts: seq<string>, i: int)
  {
    0 <= i < |parts| - 1 && parts[i] == "sessions"
    && forall j :: 0 <= j < i ==> parts[j] != "sessions"
  }

  /** The session id one context name carries: its path is split on '/',
      and the segment right after the FIRST "sessions" segment is the id.
      A name without a "sessions" segment, or whose first "sessions" segment
      is its last, carries none. */
  function ContextSessionId(name: string): (r: Option<string>)
    ensures r.Some? ==> '/' !in r.value
    ensures r.Some? ==> exists i :: SessionsAt(Segments(name), i) && r.value == Segments(name)[i + 1]
    ensures r.None? <==> "sessions" !in Segments(name)[..|Segments(name)| - 1]
  {
    var parts := Segments(name);
    var idx := PyStr.IndexOf(parts, "sessions");
    if idx.Some? && idx.value + 1 < |parts| then
      assert SessionsAt(parts, idx.value);
      Some(parts[idx.value + 1])
    else
      assert idx.Some? ==> parts[idx.value] == "sessions" && parts[|parts| - 1] == "sessions";
      None
  }

  /** The session id of the earliest context, in list order, that carries one. */
  function FirstSessionId(contexts: seq<Context>): (r: Option<string>)
    ensures |contexts| == 0 ==> r.None?
    ensures r.Some? ==> '/' !in r.value
    ensures |contexts| > 0 && ContextSessionId(contexts[0].name).Some? ==> r == ContextSessionId(contexts[0].name)
  {
    if |contexts| == 0 then None
    else match ContextSessionId(contexts[0].name)
      case Some(s) => Some(s)
      case None => FirstSessionId(contexts[1..])
  }

  /** The session id of a request's optional context list. */
  function SessionIdOf(contexts: Option<seq<Context>>): (r: Option<string>)
    ensures contexts.None? || contexts == Some([]) ==> r.None?
  {
    match contexts
    case None => None
    case Some(cs) => FirstSessionId(cs)
  }

  /** No session id is found exactly when no context carries one. */
  lemma {:induction false} FirstSessionIdNone(contexts: seq<Context>)
    ensures FirstSessionId(contexts).None? <==>
      forall k :: 0 <= k < |contexts| ==> ContextSessionId(contexts[k].name).None?
  {
    if |contexts| > 0 {
      FirstSessionIdNone(contexts[1..]);
      assert forall k :: 1 <= k < |contexts| ==> contexts[k] == contexts[1..][k - 1];
    }
  }

  /** A session id that is found comes from the earliest context carrying
      one: the contexts before it are skipped. */
  lemma {:induction false} FirstSessionIdIsEarliest(contexts: seq<Context>)
    ensures FirstSessionId(contexts).Some? ==>
      exists k :: 0 <= k < |contexts|
        && ContextSessionId(contexts[k].name) == FirstSessionId(contexts)
        && forall j :: 0 <= j < k ==> ContextSessionId(contexts[j].name).None?
  {
    if |contexts| > 0 {
      if ContextSessionId(contexts[0].name).Some? {
        assert ContextSessionId(contexts[0].name) == FirstSessionId(contexts);
      } else if FirstSessionId(contexts[1..]).Some? {
        var tail := contexts[1..];
        FirstSessionIdIsEarliest(tail);
        var k :| 0 <= k < |tail|
          && ContextSessionId(tail[k].name) == FirstSessionId(tail)
          && forall j :: 0 <= j < k ==> ContextSessionId(tail[j].name).None?;
        assert contexts[k + 1] == tail[k];
        assert forall j :: 1 <= j < k + 1 ==> contexts[j] == tail[j - 1];
        assert ContextSessionId(contexts[k + 1].name) == FirstSessionId(contexts);
      }
    }
  }

  /** A Dialogflow context name `.../sessions/{id}/contexts/{ctx}` whose
      leading segments are not "sessions" yields exactly `{id}`. Such a name
      is `"/".join` of its segments, which then split back (PyStr.SplitJoin). */
  lemma DialogflowContextName(name: string, prefix: seq<string>, sessionId: string, rest: seq<string>)
    requires Segments(name) == prefix + ["sessions", sessionId] + rest
    requires forall k :: 0 <= k < |prefix| ==> prefix[k] != "sessions"
    ensures ContextSessionId(name) == Some(sessionId)
  {
    var segments := Segments(name);
    assert SessionsAt(segments, |prefix|) by {
      assert forall j :: 0 <= j < |prefix| ==> segments[j] == prefix[j];
    }
    ContextSessionIdAt(name, |prefix|);
  }

  /** Where the first "sessions" segment is followed by another, that
      other segment is the id. */
  lemma ContextSessionIdAt(name: string, i: int)
    requires SessionsAt(Segments(name), i)
    ensures ContextSessionId(name) == Some(Segments(name)[i + 1])
  {
    var parts := Segments(name);
    var idx := PyStr.IndexOf(parts, "sessions");
    assert parts[i] == "sessions";
    assert idx.Some? && parts[idx.value] == "sessions";
  }

  /** The id after "sessions" may be empty: "sessions/" carries the id "". */
  lemma EmptySessionId()
    ensures ContextSessionId("sessions/") == Some("")
  {
    var segments := ["sessions", ""];
    assert PyStr.Join("/", segments) == "sessions/";
    PyStr.SplitJoin(segments, '/');
    assert [] + segments + [] == segments;
    DialogflowContextName("sessions/", [], "", []);
  }

  /** extract_session_id: a search over the contexts that returns as soon as
      one carries a session id. */
  method ExtractSessionId(contexts: Option<seq<Context>>) returns (sessionId: Option<string>)
    ensures sessionId == SessionIdOf(contexts)
  {
    if contexts.None? || |contexts.value| == 0 {
      return None;
    }
    var cs := contexts.value;
    var i := 0;
    while i < |cs|
      invariant 0 <= i <= |cs|
      invariant FirstSessionId(cs) == FirstSessionId(cs[i..])
    {
      assert cs[i..][1..] == cs[i + 1..];
      var parts := Segments(cs[i].name);
      var idx := PyStr.IndexOf(parts, "sessions");
      if idx.Some? && idx.value + 1 < |parts| {
        return Some(parts[idx.value + 1]);
      }
      i := i + 1;
    }
    return None;
  }

  // ---------------------------------------------------------------------
  // Slot normalisation and pairing
  // ---------------------------------------------------------------------

  /** A slot value as a list: a list is kept as it is, a truthy scalar
      becomes a one-element list, and a missing or falsy scalar an empty one. */
  function Normalize(v: Value): (items: seq<Value>)
    ensures v.List? ==> items == v.items
    ensures !v.List? ==> |items| <= 1 && forall k :: 0 <= k < |items| ==> items[k] == v
    ensures items == [] <==> !Truthy(v)
  {
    if v.List? then v.items
    else if Truthy(v) then [v]
    else []
  }

  /** The `food` slot as a list of items. */
  function FoodItems(parameters: map<string, Value>): seq<Value>
  {
    Normalize(Get(parameters, "food"))
  }

  /** The quantity paired with the item at position `i`: the quantity at the
      same position, or 1 when the quantity list is shorter. */
  function QuantityAt(qtys: seq<Value>, i: nat): (q: Value)
    ensures i < |qtys| ==> q == qtys[i]
    ensures i >= |qtys| ==> q == Int(1)
  {
    if i < |qtys| then qtys[i] else Int(1)
  }

  /** The text `"{q} x {item}"`. */
  function PartText(q: Value, item: Value): (r: string)
    ensures |r| == |Show(q)| + 3 + |Show(item)|
  {
    var r := Show(q) + " x " + Show(item);
    assert r[..|Show(q) + " x "|] == Show(q) + " x ";
    assert r[|r| - |Show(item)|..] == Show(item);
    r
  }

  /** A part begins with the quantity and " x ", and ends with the item. */
  lemma PartTextShape(q: Value, item: Value)
    ensures StartsWith(PartText(q, item), Show(q) + " x ")
    ensures EndsWith(PartText(q, item), Show(item))
  {
  }

  /** The parts of the add reply: one per item, in order, part `i` pairing
      item `i` with the quantity at the same position (1 when missing). */
  function AddParts(items: seq<Value>, qtys: seq<Value>): (parts: seq<string>)
    ensures |parts| == |items|
    ensures forall i :: 0 <= i < |items| && i < |qtys| ==> parts[i] == PartText(qtys[i], items[i])
    ensures forall i :: |qtys| <= i < |items| ==> parts[i] == PartText(Int(1), items[i])
  {
    seq(|items|, i requires 0 <= i < |items| => PartText(QuantityAt(qtys, i), items[i]))
  }

  /** Quantities beyond the number of items are ignored. */
  lemma AddPartsIgnoresExtraQuantities(items: seq<Value>, qtys: seq<Value>)
    requires |qtys| >= |items|
    ensures AddParts(items, qtys) == AddParts(items, qtys[..|items|])
  {
  }

  /** Padding the quantity list with 1s up to the number of items changes
      nothing: a missing quantity defaults to 1. */
  lemma AddPartsDefaultsToOne(items: seq<Value>, qtys: seq<Value>)
    requires |qtys| <= |items|
    ensures AddParts(items, qtys) == AddParts(items, qtys + seq(|items| - |qtys|, _ => Int(1)))
  {
  }

  // ---------------------------------------------------------------------
  // The add handler
  // ---------------------------------------------------------------------

  /** The reply of handle_order_add for normalised items and quantities. */
  function AddText(sessionId: Option<string>, items: seq<Value>, qtys: seq<Value>): (r: string)
    ensures |items| == 0 ==> r == AddPrompt
    ensures |items| > 0 ==> StartsWith(r, AddedPrefix + ShowSessionId(sessionId) + "): ")
    ensures |items| > 0 ==> EndsWith(r, PyStr.Join(", ", AddParts(items, qtys)))
  {
    var parts := AddParts(items, qtys);
    if |parts| > 0 then
      var head := AddedPrefix + ShowSessionId(sessionId) + "): ";
      var r := head + PyStr.Join(", ", parts);
      assert r[..|head|] == head;
      assert r[|r| - |PyStr.Join(", ", parts)|..] == PyStr.Join(", ", parts);
      r
    else
      AddPrompt
  }

  /** The response of handle_order_add for a request's parameters. */
  function AddResponse(parameters: map<string, Value>, sessionId: Option<string>): (response: Response)
    ensures response.Fulfillment?
    ensures response.text == AddPrompt <==> !Truthy(Get(parameters, "food"))
  {
    var items := FoodItems(parameters);
    var qtys := Normalize(Get(parameters, "quantity"));
    AddTextConfirmsIffItems(sessionId, items, qtys);
    assert !StartsWith(AddPrompt, AddedPrefix) by {
      assert AddPrompt[0] != AddedPrefix[0];
    }
    Fulfillment(AddText(sessionId, items, qtys))
  }

  /** The add reply is a confirmation exactly when there is an item, and
      without items it is the fixed re-prompt, whatever the session id. */
  lemma AddTextConfirmsIffItems(sessionId: Option<string>, items: seq<Value>, qtys: seq<Value>)
    ensures StartsWith(AddText(sessionId, items, qtys), AddedPrefix) <==> |items| > 0
    ensures |items| == 0 ==> AddText(sessionId, items, qtys) == AddPrompt
    ensures |items| > 0 ==>
      AddText(sessionId, items, qtys) == AddedPrefix + ShowSessionId(sessionId) + "): " + PyStr.Join(", ", AddParts(items, qtys))
  {
    if |items| == 0 {
      assert AddPrompt[0] != AddedPrefix[0];
    }
  }

  /** The add reply does not depend on the food slot's shape: a truthy
      scalar food behaves as the list holding it. */
  lemma AddResponseScalarAsList(parameters: map<string, Value>, sessionId: Option<string>)
    requires "food" in parameters && !parameters["food"].List? && Truthy(parameters["food"])
    ensures AddResponse(parameters, sessionId)
      == AddResponse(parameters["food" := List([parameters["food"]])], sessionId)
  {
    assert Get(parameters["food" := List([parameters["food"]])], "quantity") == Get(parameters, "quantity");
  }

  /** The example of the handler's documentation: two foods with two
      quantities. */
  lemma AddTwoFoods()
    ensures AddResponse(map["food" := List([Str("Burger"), Str("Fries")]), "quantity" := List([Int(2), Int(1)])], Some("abc"))
      == Fulfillment("Added to your order (abc): " + "2 x Burger, 1 x Fries")
  {
    TwoFoodsSlots();
    TwoFoodsText();
  }

  /** The slots of the documented example, normalised. */
  lemma TwoFoodsSlots()
    ensures var parameters := map["food" := List([Str("Burger"), Str("Fries")]), "quantity" := List([Int(2), Int(1)])];
      FoodItems(parameters) == [Str("Burger"), Str("Fries")] && Normalize(Get(parameters, "quantity")) == [Int(2), Int(1)]
  {
  }

  /** The reply text of the documented example. */
  lemma TwoFoodsText()
    ensures AddText(Some("abc"), [Str("Burger"), Str("Fries")], [Int(2), Int(1)])
      == "Added to your order (abc): " + "2 x Burger, 1 x Fries"
  {
    AddTextConfirmsIffItems(Some("abc"), [Str("Burger"), Str("Fries")], [Int(2), Int(1)]);
    TwoFoodsJoined();
    assert AddedPrefix + "abc" + "): " == "Added to your order (abc): ";
  }

  /** The parts of the documented example, joined. */
  lemma TwoFoodsJoined()
    ensures PyStr.Join(", ", AddParts([Str("Burger"), Str("Fries")], [Int(2), Int(1)])) == "2 x Burger, 1 x Fries"
  {
    TwoFoodsParts();
    var parts := ["2 x Burger", "1 x Fries"];
    assert parts[1..] == ["1 x Fries"];
    assert PyStr.Join(", ", parts) == "2 x Burger" + ", " + "1 x Fries";
  }

  /** The parts of the documented example, one per food. */
  lemma TwoFoodsParts()
    ensures AddParts([Str("Burger"), Str("Fries")], [Int(2), Int(1)]) == ["2 x Burger", "1 x Fries"]
  {
    assert AddParts([Str("Burger"), Str("Fries")], [Int(2), Int(1)])
      == [PartText(Int(2), Str("Burger")), PartText(Int(1), Str("Fries"))];
    ShowDigit(2);
    assert PartText(Int(2), Str("Burger")) == "2 x Burger";
    ShowDigit(1);
    assert PartText(Int(1), Str("Fries")) == "1 x Fries";
  }

  /** A single food with no quantity slot counts once. */
  lemma AddOneFoodWithoutQuantity()
    ensures AddResponse(map["food" := Str("Pizza")], None)
      == Fulfillment("Added to your order (None): " + "1 x Pizza")
  {
    OnePizzaSlots();
    OnePizzaText();
  }

  /** The slots of a request with one food and no quantity, normalised. */
  lemma OnePizzaSlots()
    ensures var parameters := map["food" := Str("Pizza")];
      FoodItems(parameters) == [Str("Pizza")] && Normalize(Get(parameters, "quantity")) == []
  {
  }

  /** The reply text for one pizza without a quantity or a session id. */
  lemma OnePizzaText()
    ensures AddText(None, [Str("Pizza")], []) == "Added to your order (None): " + "1 x Pizza"
  {
    AddTextConfirmsIffItems(None, [Str("Pizza")], []);
    OnePizzaPart();
    assert PyStr.Join(", ", ["1 x Pizza"]) == "1 x Pizza";
    assert AddedPrefix + "None" + "): " == "Added to your order (None): ";
  }

  /** The single part of a pizza without a quantity. */
  lemma OnePizzaPart()
    ensures AddParts([Str("Pizza")], []) == ["1 x Pizza"]
  {
    assert AddParts([Str("Pizza")], []) == [PartText(Int(1), Str("Pizza"))];
    ShowDigit(1);
    assert PartText(Int(1), Str("Pizza")) == "1 x Pizza";
  }

  /** `str()` of a one-digit number is that digit. */
  lemma ShowDigit(d: nat)
    requires d < 10
    ensures Show(Int(d)) == [PyStr.DigitChar(d)]
  {
  }

  /** handle_order_add: the slots are normalised to lists, and a loop pairs
      each item with its quantity. */
  method HandleOrderAdd(parameters: map<string, Value>, sessionId: Option<string>) returns (response: Response)
    ensures response == AddResponse(parameters, sessionId)
  {
    var items: seq<Value> := [];
    var qtys: seq<Value> := [];
    var rawFood := Get(parameters, "food");
    var rawQty := Get(parameters, "quantity");
    if rawFood.List? {
      items := rawFood.items;
    } else if Truthy(rawFood) {
      items := [rawFood];
    }
    if rawQty.List? {
      qtys := rawQty.items;
    } else if Truthy(rawQty) {
      qtys := [rawQty];
    }

    var parts: seq<string> := [];
    var i := 0;
    while i < |items|
      invariant 0 <= i <= |items|
      invariant |parts| == i
      invariant forall k :: 0 <= k < i ==> parts[k] == PartText(QuantityAt(qtys, k), items[k])
    {
      var q := if i < |qtys| then qtys[i] else Int(1);
      assert q == QuantityAt(qtys, i);
      assert Show(q) + " x " + Show(items[i]) == PartText(q, items[i]);
      parts := parts + [Show(q) + " x " + Show(items[i])];
      i := i + 1;
    }
    assert parts == AddParts(items, qtys);
    assert items == FoodItems(parameters) && qtys == Normalize(rawQty);
    AddTextConfirmsIffItems(sessionId, items, qtys);

    var text := if |parts| > 0
      then AddedPrefix + ShowSessionId(sessionId) + "): " + PyStr.Join(", ", parts)
      else AddPrompt;
    return Fulfillment(text);
  }

  // ---------------------------------------------------------------------
  // The remove handler
  // ---------------------------------------------------------------------

  /** handle_order_remove: the food slot normalised to a list; no items give
      the fixed re-prompt; otherwise the items joined with ", ", which raises
      TypeError when one of them is not a string. */
  function RemoveResponse(parameters: map<string, Value>, sessionId: Option<string>): (response: Response)
    ensures response.TypeError? <==>
      exists i :: 0 <= i < |FoodItems(parameters)| && !FoodItems(parameters)[i].Str?
    ensures FoodItems(parameters) == [] ==> response == Fulfillment(RemovePrompt)
    ensures var items := FoodItems(parameters);
      items != [] && (forall i :: 0 <= i < |items| ==> items[i].Str?) ==>
        response == Fulfillment(RemovedPrefix + ShowSessionId(sessionId) + "): " + PyStr.Join(", ", Strings(items)))
  {
    var items := FoodItems(parameters);
    if items != [] then
      match JoinValues(", ", items)
      case Some(joined) => Fulfillment(RemovedPrefix + ShowSessionId(sessionId) + "): " + joined)
      case None => TypeError
    else
      Fulfillment(RemovePrompt)
  }

  /** Removal does not check the item against any order: it always reports
      the named item as removed. */
  lemma RemoveReportsAnyItem(item: string, sessionId: string)
    requires item != ""
    ensures RemoveResponse(map["food" := Str(item)], Some(sessionId))
      == Fulfillment("Removed from your order (" + sessionId + "): " + item)
  {
    var items := FoodItems(map["food" := Str(item)]);
    assert items == [Str(item)];
    assert Strings(items) == [item];
  }

  // ---------------------------------------------------------------------
  // The track handler
  // ---------------------------------------------------------------------

  /** The order id of handle_track_order: the `number` slot, or the
      `order_id` slot when `number` is falsy; of a non-empty list, its first
      element. `Null` means no id. */
  function ResolveOrderId(parameters: map<string, Value>): (orderId: Value)
    ensures var number := Get(parameters, "number");
      Truthy(number) ==> orderId == (if number.List? then number.items[0] else number)
    ensures var number, fallback := Get(parameters, "number"), Get(parameters, "order_id");
      !Truthy(number) ==> orderId == (if fallback.List? && fallback.items != [] then fallback.items[0] else fallback)
  {
    var raw := Or(Get(parameters, "number"), Get(parameters, "order_id"));
    if raw.List? && raw.items != [] then raw.items[0] else raw
  }

  /** A truthy `number` slot takes precedence: `order_id` is then irrelevant. */
  lemma NumberTakesPrecedence(parameters: map<string, Value>, other: Value)
    requires Truthy(Get(parameters, "number"))
    ensures ResolveOrderId(parameters["order_id" := other]) == ResolveOrderId(parameters)
  {
    assert Get(parameters["order_id" := other], "number") == Get(parameters, "number");
  }

  /** Python truthiness of the looked-up status (None or a string). */
  predicate StatusTruthy(status: Option<string>)
    ensures StatusTruthy(status) <==> status.Some? && Truthy(Str(status.value))
  {
    status.Some? && status.value != ""
  }

  /** handle_track_order with `lookup` standing for get_order_status. */
  function TrackResponse(parameters: map<string, Value>, lookup: Value -> Option<string>): (response: Response)
    ensures response.Fulfillment?
    ensures ResolveOrderId(parameters) == Null ==> response.text == TrackPrompt
    ensures var id := ResolveOrderId(parameters);
      id != Null && StatusTruthy(lookup(id)) ==>
        response.text == StatusText(id, lookup(id).value)
    ensures var id := ResolveOrderId(parameters);
      id != Null && !StatusTruthy(lookup(id)) ==>
        response.text == NoTrackingText(id)
  {
    var orderId := ResolveOrderId(parameters);
    if orderId == Null then Fulfillment(TrackPrompt)
    else
      var status := lookup(orderId);
      if StatusTruthy(status) then Fulfillment(StatusText(orderId, status.value))
      else Fulfillment(NoTrackingText(orderId))
  }

  /** The reply for an order with a status: "Status for order {id}: {status}". */
  function StatusText(orderId: Value, status: string): (r: string)
    ensures StartsWith(r, "Status for order " + Show(orderId) + ": ")
    ensures EndsWith(r, status)
    ensures |r| == |"Status for order "| + |Show(orderId)| + 2 + |status|
  {
    var r := "Status for order " + Show(orderId) + ": " + status;
    assert r[|r| - |status|..] == status;
    r
  }

  /** The reply for an order without tracking information. */
  function NoTrackingText(orderId: Value): (r: string)
    ensures StartsWith(r, "No tracking " + "information found for order ID ")
    ensures EndsWith(r, Show(orderId) + ".")
    ensures |r| == |"No tracking " + "information found for order ID "| + |Show(orderId)| + 1
  {
    // In two pieces, as the re-prompts are, for TrackTextsDistinct.
    var prefix := "No tracking " + "information found for order ID ";
    var r := prefix + Show(orderId) + ".";
    assert r[..|prefix|] == prefix;
    assert r[|r| - |Show(orderId) + "."|..] == Show(orderId) + ".";
    r
  }

  /** The three replies of the track handler are told apart by their first
      character. */
  lemma TrackTextsDistinct(orderId: Value, status: string)
    ensures StatusText(orderId, status)[0] == 'S'
    ensures NoTrackingText(orderId)[0] == 'N'
    ensures TrackPrompt[0] == 'I'
  {
  }

  /** The re-prompt for a missing id comes exactly when no id resolves. */
  lemma TrackPromptIffNoId(parameters: map<string, Value>, lookup: Value -> Option<string>)
    ensures TrackResponse(parameters, lookup) == Fulfillment(TrackPrompt) <==> ResolveOrderId(parameters) == Null
  {
    var id := ResolveOrderId(parameters);
    if id != Null {
      var status := lookup(id);
      TrackTextsDistinct(id, if status.Some? then status.value else "");
    } else {
      TrackTextsDistinct(id, "");
    }
  }

  /** Without an id the status lookup is not consulted: any two lookups give
      the same response. */
  lemma TrackWithoutIdSkipsLookup(parameters: map<string, Value>, lookup1: Value -> Option<string>, lookup2: Value -> Option<string>)
    requires ResolveOrderId(parameters) == Null
    ensures TrackResponse(parameters, lookup1) == TrackResponse(parameters, lookup2)
  {
  }

  /** With an id, the lookup is consulted at that id only. */
  lemma TrackConsultsLookupAtIdOnly(parameters: map<string, Value>, lookup1: Value -> Option<string>, lookup2: Value -> Option<string>)
    requires lookup1(ResolveOrderId(parameters)) == lookup2(ResolveOrderId(parameters))
    ensures TrackResponse(parameters, lookup1) == TrackResponse(parameters, lookup2)
  {
  }

  // ---------------------------------------------------------------------
  // Routing
  // ---------------------------------------------------------------------

  /** The fallback reply for an intent no handler takes. */
  function FallbackText(intentName: Value): (r: string)
    ensures StartsWith(r, "Sorry, I don't know how to handle `")
    ensures EndsWith(r, Show(intentName) + "`.")
    ensures |r| == |"Sorry, I don't know how to handle `"| + |Show(intentName)| + 2
  {
    var prefix := "Sorry, I don't know how to handle `";
    var r := prefix + Show(intentName) + "`.";
    assert r[..|prefix|] == prefix;
    assert r[|r| - |Show(intentName) + "`."|..] == Show(intentName) + "`.";
    r
  }

  /** webhook: the session id is extracted from the output contexts, and the
      display name, compared for exact equality with the three intent names,
      selects one handler; any other name, a missing one included, gets the
      fallback, which depends on the name alone. */
  method HandleWebhook(request: Request, lookup: Value -> Option<string>) returns (response: Response)
    ensures var name := Get(request.intent, "displayName");
      name == Str(AddIntent) ==>
        response == AddResponse(request.parameters, SessionIdOf(request.outputContexts))
    ensures var name := Get(request.intent, "displayName");
      name == Str(RemoveIntent) ==>
        response == RemoveResponse(request.parameters, SessionIdOf(request.outputContexts))
    ensures var name := Get(request.intent, "displayName");
      name == Str(TrackIntent) ==> response == TrackResponse(request.parameters, lookup)
    ensures var name := Get(request.intent, "displayName");
      name !in {Str(AddIntent), Str(RemoveIntent), Str(TrackIntent)} ==>
        response == Fulfillment(FallbackText(name))
  {
    var intentName := Get(request.intent, "displayName");
    var params := request.parameters;
    var sessionId := ExtractSessionId(request.outputContexts);

    if intentName == Str(AddIntent) {
      response := HandleOrderAdd(params, sessionId);
    } else if intentName == Str(RemoveIntent) {
      response := RemoveResponse(params, sessionId);
    } else if intentName == Str(TrackIntent) {
      response := TrackResponse(params, lookup);
    } else {
      response := Fulfillment(FallbackText(intentName));
    }
  }
}
