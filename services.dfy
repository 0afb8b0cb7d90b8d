/** The contract call surface: argument checks, the call table and the
    decoding of the result envelope. */
module Escalate {
  import opened Outcomes
  import opened Js
  import opened Types

  /** `JSON.parse`: the parsed value, or the message of the SyntaxError it throws. */
  type Parse = string -> Result<Value, string>

  /** `JSON.stringify`: the text, or `None` where it yields `undefined`. */
  type Stringify = Value -> Option<string>

  /** `wallet.contracts.execute(address, methodName, params)`, awaited. */
  type Execute = (string, string, map<string, Value>) -> Outcome<Value>

  const MissingAddressMessage := "Add the contract address to continue."
  const UnsupportedCardPrefix := "Unsupported card value: "

  /** `assertAddress`: the error for an empty contract address. */
  function AddressError(address: string): Option<string> {
    if address == "" then Some(MissingAddressMessage) else None
  }

  /** `CARD_OPTIONS.includes(card)`. */
  predicate Supported(card: string) {
    card in CardNames()
  }

  /** `normalizeCards`: the cards unchanged when every one is supported, else
      the error naming the first one that is not. */
  function NormalizeCards(cards: seq<string>): (r: Result<seq<string>, string>)
    ensures r.Ok? <==> forall i :: 0 <= i < |cards| ==> Supported(cards[i])
    ensures r.Ok? ==> r.value == cards
    ensures r.Err? ==> exists i :: FirstUnsupported(cards, i) && r.error == UnsupportedCardPrefix + cards[i]
  {
    if cards == [] then Ok([])
    else if !Supported(cards[0]) then Err(UnsupportedCardPrefix + cards[0])
    else
      match NormalizeCards(cards[1..])
      case Ok(rest) => Ok([cards[0]] + rest)
      case Err(e) =>
        NormalizeShift(cards, e);
        Err(e)
  }

  lemma NormalizeShift(cards: seq<string>, e: string)
    requires |cards| > 0 && Supported(cards[0])
    requires exists i :: FirstUnsupported(cards[1..], i) && e == UnsupportedCardPrefix + cards[1..][i]
    ensures exists i :: FirstUnsupported(cards, i) && e == UnsupportedCardPrefix + cards[i]
  {
    var i :| FirstUnsupported(cards[1..], i) && e == UnsupportedCardPrefix + cards[1..][i];
    assert cards[i + 1] == cards[1..][i];
    forall j | 0 <= j < i + 1 ensures Supported(cards[j]) {
      if j > 0 { assert cards[j] == cards[1..][j - 1]; }
    }
    assert FirstUnsupported(cards, i + 1);
  }

  /** `cards[i]` is the first unsupported card. */
  predicate FirstUnsupported(cards: seq<string>, i: int) {
    0 <= i < |cards| && !Supported(cards[i]) && forall j :: 0 <= j < i ==> Supported(cards[j])
  }

  /** A supported card name is exactly the name of some `Card`. */
  lemma SupportedIsCardName(s: string)
    ensures Supported(s) <==> exists c: Card :: CardName(c) == s
  {
    CardNamesAreTheUnion(s);
    if exists c: Card :: CardName(c) == s {
      var c: Card :| CardName(c) == s;
      assert ParseCard(CardName(c)) == Some(c);
    }
  }

  /** The V8 text of the TypeError that `key in v` throws for a primitive `v`. */
  function InOperatorMessage(key: string, v: Value): string {
    "Cannot use 'in' operator to search for '" + key + "' in " + PrimitiveText(v)
  }

  /** `String(v)` for the primitives `JSON.parse` can produce. */
  function PrimitiveText(v: Value): string {
    match v
    case Undefined => "undefined"
    case Null => "null"
    case Bool(b) => if b then "true" else "false"
    case Num(n) => Decimal(n)
    case Str(s) => s
    case _ => ""
  }

  /** The `Ok`/`Err` wrapper: `Ok` wins over `Err`; a string `Ok` payload is
      itself JSON that is parsed; an `Err` payload becomes the error message;
      anything else is passed through. */
  function Unwrap(data: Value, parse: Parse, stringify: Stringify): Outcome<Value> {
    if !IsObject(data) then
      Threw(Some(InOperatorMessage("Ok", data)))
    else if Has(data, "Ok") then
      var ok := Get(data, "Ok");
      if ok.Str? then
        match parse(ok.s)
        case Ok(v) => Returned(v)
        case Err(m) => Threw(Some(m))
      else
        Returned(ok)
    else if Has(data, "Err") then
      var e := Get(data, "Err");
      Threw(Some(if e.Str? then e.s else stringify(e).GetOr("")))
    else
      Returned(data)
  }

  /** What `exec` makes of the raw result of a contract call. */
  function Decode(raw: Value, parse: Parse, stringify: Stringify): Outcome<Value> {
    if !(Truthy(raw) && IsObject(raw)) then
      Returned(raw)
    else
      var txn := Get(raw, "txn_result");
      if Has(raw, "txn_result") && txn.Str? then
        match parse(txn.s)
        case Err(_) => Returned(raw)
        case Ok(data) => Unwrap(data, parse, stringify)
      else
        Unwrap(raw, parse, stringify)
  }

  /** `exec(method, params)`: the address is checked before the contract is
      called, and the call's result is decoded. */
  function Exec(address: string, methodName: string, params: map<string, Value>,
                execute: Execute, parse: Parse, stringify: Stringify): Outcome<Value>
  {
    match AddressError(address)
    case Some(m) => Threw(Some(m))
    case None =>
      match execute(address, methodName, params)
      case Threw(m) => Threw(m)
      case Returned(raw) => Decode(raw, parse, stringify)
  }

  // ---------------------------------------------------------------------
  // Lemmas about the envelope
  // ---------------------------------------------------------------------

  /** A string `txn_result` is parsed and its content unwrapped; when it does
      not parse, the raw result is returned unchanged. */
  lemma DecodeTxnResult(raw: Value, parse: Parse, stringify: Stringify)
    requires raw.Obj? && "txn_result" in raw.fields && raw.fields["txn_result"].Str?
    ensures parse(raw.fields["txn_result"].s).Err? ==> Decode(raw, parse, stringify) == Returned(raw)
    ensures parse(raw.fields["txn_result"].s).Ok? ==>
      Decode(raw, parse, stringify) == Unwrap(parse(raw.fields["txn_result"].s).value, parse, stringify)
    ensures var parsed := parse(raw.fields["txn_result"].s);
      parsed.Ok? && parsed.value.Obj? && "Ok" !in parsed.value.fields && "Err" !in parsed.value.fields ==>
        Decode(raw, parse, stringify) == Returned(parsed.value)
  {
  }

  /** `Ok` is looked at before `Err`: a string payload is parsed (its parse
      error is what is thrown), any other payload is returned as it is. */
  lemma UnwrapOkFirst(data: Value, parse: Parse, stringify: Stringify)
    requires data.Obj? && "Ok" in data.fields
    ensures var ok := data.fields["Ok"];
      Unwrap(data, parse, stringify) ==
        if !ok.Str? then Returned(ok)
        else match parse(ok.s) case Ok(v) => Returned(v) case Err(m) => Threw(Some(m))
  {
  }

  /** Without `Ok`, an `Err` is thrown with its string verbatim, or with its
      JSON text when it is not a string. */
  lemma UnwrapErr(data: Value, parse: Parse, stringify: Stringify)
    requires data.Obj? && "Ok" !in data.fields && "Err" in data.fields
    ensures var e := data.fields["Err"];
      Unwrap(data, parse, stringify) == Threw(Some(if e.Str? then e.s else stringify(e).GetOr("")))
  {
  }

  /** Results that are not objects, and objects with neither `Ok`, `Err` nor
      a string `txn_result`, come back unchanged. */
  lemma DecodePassesThrough(raw: Value, parse: Parse, stringify: Stringify)
    requires !IsObject(raw) || (raw.Obj? && "Ok" !in raw.fields && "Err" !in raw.fields
      && !("txn_result" in raw.fields && raw.fields["txn_result"].Str?))
    ensures Decode(raw, parse, stringify) == Returned(raw)
  {
  }

  /** A `txn_result` that parses to something other than an object makes
      the `in` test throw a TypeError. */
  lemma DecodePrimitiveTxnResult(raw: Value, parse: Parse, stringify: Stringify)
    requires raw.Obj? && "txn_result" in raw.fields && raw.fields["txn_result"].Str?
    requires parse(raw.fields["txn_result"].s).Ok? && !IsObject(parse(raw.fields["txn_result"].s).value)
    ensures Decode(raw, parse, stringify).Threw?
  {
  }

  /** The contract's success envelope `{ Ok: text }`. */
  function OkEnvelope(text: string): Value {
    Obj(map["Ok" := Str(text)])
  }

  /** The contract's failure envelope `{ Err: message }`. */
  function ErrEnvelope(message: string): Value {
    Obj(map["Err" := Str(message)])
  }

  /** The wallet's transaction wrapper `{ txn_result: text }`. */
  function TxnEnvelope(text: string): Value {
    Obj(map["txn_result" := Str(text)])
  }

  /** Decoding inverts the encoding: a payload sent as JSON inside `Ok`,
      itself sent as JSON inside `txn_result`, comes back as the payload; an
      error message inside `Err` comes back as the thrown message. */
  lemma EnvelopeRoundTrip(payload: Value, message: string, parse: Parse, stringify: Stringify,
                          payloadText: string, okText: string, errText: string)
    requires stringify(payload) == Some(payloadText) && parse(payloadText) == Ok(payload)
    requires stringify(OkEnvelope(payloadText)) == Some(okText) && parse(okText) == Ok(OkEnvelope(payloadText))
    requires stringify(ErrEnvelope(message)) == Some(errText) && parse(errText) == Ok(ErrEnvelope(message))
    ensures Decode(OkEnvelope(payloadText), parse, stringify) == Returned(payload)
    ensures Decode(TxnEnvelope(okText), parse, stringify) == Returned(payload)
    ensures Decode(ErrEnvelope(message), parse, stringify) == Threw(Some(message))
    ensures Decode(TxnEnvelope(errText), parse, stringify) == Threw(Some(message))
  {
    assert Get(TxnEnvelope(okText), "txn_result") == Str(okText);
    assert Get(TxnEnvelope(errText), "txn_result") == Str(errText);
    assert !Has(OkEnvelope(payloadText), "txn_result");
    assert !Has(ErrEnvelope(message), "txn_result") && !Has(ErrEnvelope(message), "Ok");
  }

  /** With no contract address, `exec` fails with the address message and
      never consults the contract. */
  lemma ExecWithoutAddress(methodName: string, params: map<string, Value>,
                           execute: Execute, other: Execute, parse: Parse, stringify: Stringify)
    ensures Exec("", methodName, params, execute, parse, stringify) == Threw(Some(MissingAddressMessage))
    ensures Exec("", methodName, params, execute, parse, stringify) == Exec("", methodName, params, other, parse, stringify)
  {
  }

  // ---------------------------------------------------------------------
  // The call table
  // ---------------------------------------------------------------------

  /** The client API, one constructor per function. */
  datatype ApiCall =
    | RegisterUser(bio: string)
    | GetUsers
    | GetUser(id: string)
    | GetMyCards
    | StartHand(claim: string, cards: seq<string>)
    | GetHands
    | GetHand(id: string)
    | BuyCards(amount: int)
    | StakeOn(handId: string, cards: seq<string>)
    | CheckHand(handId: string)
    | MakeOffer(cards: seq<string>, amount: int)
    | GetOffers
    | Bid(offerId: string, bidAmount: int)
    | Resolve(offerId: string)
    | WithdrawBid(offerId: string)
    | Deposit(amount: int)

  /** A contract method name with its parameters. */
  datatype Request = Request(methodName: string, params: map<string, Value>)

  function CardList(cards: seq<string>): (v: Value)
    ensures v.Arr? && |v.items| == |cards|
  {
    Arr(seq(|cards|, i requires 0 <= i < |cards| => Str(cards[i])))
  }

  /** A request whose `cards` parameter is the normalized card list. */
  function WithCards(methodName: string, params: map<string, Value>, cards: seq<string>): Result<Request, string> {
    match NormalizeCards(cards)
    case Err(e) => Err(e)
    case Ok(cs) => Ok(Request(methodName, params["cards" := CardList(cs)]))
  }

  /** The method and parameters each API function sends. Card lists are
      checked first, so an unsupported card fails the call before it is
      made. The bid amount travels under the key `bid_amout`. */
  function RequestOf(call: ApiCall): Result<Request, string> {
    match call
    case RegisterUser(bio) => Ok(Request("register_user", map["bio" := Str(bio)]))
    case GetUsers => Ok(Request("get_users", map[]))
    case GetUser(id) => Ok(Request("get_user", map["id" := Str(id)]))
    case GetMyCards => Ok(Request("get_my_cards", map[]))
    case StartHand(claim, cards) => WithCards("start_hand", map["claim" := Str(claim)], cards)
    case GetHands => Ok(Request("get_hands", map[]))
    case GetHand(id) => Ok(Request("get_hand", map["id" := Str(id)]))
    case BuyCards(amount) => Ok(Request("buy_cards", map["amount" := Num(amount)]))
    case StakeOn(handId, cards) => WithCards("stake", map["hand_id" := Str(handId)], cards)
    case CheckHand(handId) => Ok(Request("check", map["hand_id" := Str(handId)]))
    case MakeOffer(cards, amount) => WithCards("offer", map["amount" := Num(amount)], cards)
    case GetOffers => Ok(Request("get_offers", map[]))
    case Bid(offerId, bidAmount) => Ok(Request("bid", map["offer_id" := Str(offerId), "bid_amout" := Num(bidAmount)]))
    case Resolve(offerId) => Ok(Request("resolve", map["offer_id" := Str(offerId)]))
    case WithdrawBid(offerId) => Ok(Request("withdraw_bid", map["offer_id" := Str(offerId)]))
    case Deposit(amount) => Ok(Request("deposit", map["amount" := Num(amount)]))
  }

  /** The cards a request carries, when it carries a list of strings. */
  function CardsOf(v: Value): Option<seq<string>> {
    if v.Arr? && forall i :: 0 <= i < |v.items| ==> v.items[i].Str? then
      Some(seq(|v.items|, i requires 0 <= i < |v.items| && v.items[i].Str? => v.items[i].s))
    else None
  }

  /** Reads an API call back from the request it sent. */
  function CallOf(r: Request): Option<ApiCall> {
    var p := r.params;
    var str := (k: string) => if k in p && p[k].Str? then Some(p[k].s) else None;
    var num := (k: string) => if k in p && p[k].Num? then Some(p[k].n) else None;
    var cards := if "cards" in p then CardsOf(p["cards"]) else None;
    match r.methodName
    case "register_user" => if str("bio").Some? then Some(RegisterUser(str("bio").value)) else None
    case "get_users" => Some(GetUsers)
    case "get_user" => if str("id").Some? then Some(GetUser(str("id").value)) else None
    case "get_my_cards" => Some(GetMyCards)
    case "start_hand" =>
      if str("claim").Some? && cards.Some? then Some(StartHand(str("claim").value, cards.value)) else None
    case "get_hands" => Some(GetHands)
    case "get_hand" => if str("id").Some? then Some(GetHand(str("id").value)) else None
    case "buy_cards" => if num("amount").Some? then Some(BuyCards(num("amount").value)) else None
    case "stake" =>
      if str("hand_id").Some? && cards.Some? then Some(StakeOn(str("hand_id").value, cards.value)) else None
    case "check" => if str("hand_id").Some? then Some(CheckHand(str("hand_id").value)) else None
    case "offer" =>
      if cards.Some? && num("amount").Some? then Some(MakeOffer(cards.value, num("amount").value)) else None
    case "get_offers" => Some(GetOffers)
    case "bid" =>
      if str("offer_id").Some? && num("bid_amout").Some? then Some(Bid(str("offer_id").value, num("bid_amout").value)) else None
    case "resolve" => if str("offer_id").Some? then Some(Resolve(str("offer_id").value)) else None
    case "withdraw_bid" => if str("offer_id").Some? then Some(WithdrawBid(str("offer_id").value)) else None
    case "deposit" => if num("amount").Some? then Some(Deposit(num("amount").value)) else None
    case _ => None
  }

  lemma CardListRoundTrip(cards: seq<string>)
    ensures CardsOf(CardList(cards)) == Some(cards)
  {
    var v := CardList(cards);
    assert forall i :: 0 <= i < |v.items| ==> v.items[i] == Str(cards[i]);
    var back := seq(|v.items|, i requires 0 <= i < |v.items| && v.items[i].Str? => v.items[i].s);
    assert back == cards;
  }

  /** A card request is made exactly when every card is supported, and it
      carries the cards so that they read back. */
  lemma WithCardsRoundTrip(methodName: string, params: map<string, Value>, cards: seq<string>)
    ensures WithCards(methodName, params, cards).Err? <==> exists i :: 0 <= i < |cards| && !Supported(cards[i])
    ensures WithCards(methodName, params, cards).Ok? ==>
      && WithCards(methodName, params, cards).value.methodName == methodName
      && WithCards(methodName, params, cards).value.params == params["cards" := CardList(cards)]
      && CardsOf(CardList(cards)) == Some(cards)
  {
    CardListRoundTrip(cards);
  }

  /** The calls without a card list are always sent and read back. */
  lemma PlainRequestRoundTrip(call: ApiCall)
    requires !call.StartHand? && !call.StakeOn? && !call.MakeOffer?
    ensures RequestOf(call).Ok? && CallOf(RequestOf(call).value) == Some(call)
  {
  }

  lemma StartHandRoundTrip(claim: string, cards: seq<string>)
    ensures RequestOf(StartHand(claim, cards)).Err? <==> exists i :: 0 <= i < |cards| && !Supported(cards[i])
    ensures RequestOf(StartHand(claim, cards)).Ok? ==>
      CallOf(RequestOf(StartHand(claim, cards)).value) == Some(StartHand(claim, cards))
  {
    WithCardsRoundTrip("start_hand", map["claim" := Str(claim)], cards);
    if RequestOf(StartHand(claim, cards)).Ok? {
      var r := RequestOf(StartHand(claim, cards)).value;
      assert r.methodName == "start_hand";
      assert "claim" in r.params && r.params["claim"] == Str(claim);
      assert "cards" in r.params && CardsOf(r.params["cards"]) == Some(cards);
    }
  }

  lemma StakeRoundTrip(handId: string, cards: seq<string>)
    ensures RequestOf(StakeOn(handId, cards)).Err? <==> exists i :: 0 <= i < |cards| && !Supported(cards[i])
    ensures RequestOf(StakeOn(handId, cards)).Ok? ==>
      CallOf(RequestOf(StakeOn(handId, cards)).value) == Some(StakeOn(handId, cards))
  {
    WithCardsRoundTrip("stake", map["hand_id" := Str(handId)], cards);
    if RequestOf(StakeOn(handId, cards)).Ok? {
      var r := RequestOf(StakeOn(handId, cards)).value;
      assert r.methodName == "stake";
      assert "hand_id" in r.params && r.params["hand_id"] == Str(handId);
      assert "cards" in r.params && CardsOf(r.params["cards"]) == Some(cards);
    }
  }

  lemma OfferRoundTrip(cards: seq<string>, amount: int)
    ensures RequestOf(MakeOffer(cards, amount)).Err? <==> exists i :: 0 <= i < |cards| && !Supported(cards[i])
    ensures RequestOf(MakeOffer(cards, amount)).Ok? ==>
      CallOf(RequestOf(MakeOffer(cards, amount)).value) == Some(MakeOffer(cards, amount))
  {
    WithCardsRoundTrip("offer", map["amount" := Num(amount)], cards);
    if RequestOf(MakeOffer(cards, amount)).Ok? {
      var r := RequestOf(MakeOffer(cards, amount)).value;
      assert r.methodName == "offer";
      assert "amount" in r.params && r.params["amount"] == Num(amount);
      assert "cards" in r.params && CardsOf(r.params["cards"]) == Some(cards);
    }
  }

  /** Every call whose cards are all supported is sent, and the request
      names it unambiguously: no two API functions send the same request. */
  lemma RequestRoundTrip(call: ApiCall)
    ensures RequestOf(call).Ok? ==> CallOf(RequestOf(call).value) == Some(call)
    ensures RequestOf(call).Err? <==> exists i :: 0 <= i < |CardsArgument(call)| && !Supported(CardsArgument(call)[i])
  {
    if call.StartHand? {
      assert call == StartHand(call.claim, call.cards) && CardsArgument(call) == call.cards;
      StartHandRoundTrip(call.claim, call.cards);
    } else if call.StakeOn? {
      assert call == StakeOn(call.handId, call.cards) && CardsArgument(call) == call.cards;
      StakeRoundTrip(call.handId, call.cards);
    } else if call.MakeOffer? {
      assert call == MakeOffer(call.cards, call.amount) && CardsArgument(call) == call.cards;
      OfferRoundTrip(call.cards, call.amount);
    } else {
      PlainRequestRoundTrip(call);
    }
  }

  /** The card list an API call carries (none for the others). */
  function CardsArgument(call: ApiCall): seq<string> {
    if call.StartHand? || call.StakeOn? || call.MakeOffer? then call.cards else []
  }

  /** The whole API function: build the request, then `exec` it. */
  function Invoke(call: ApiCall, address: string, execute: Execute, parse: Parse, stringify: Stringify): Outcome<Value> {
    match RequestOf(call)
    case Err(e) => Threw(Some(e))
    case Ok(r) => Exec(address, r.methodName, r.params, execute, parse, stringify)
  }

  /** An unsupported card is reported before the address is looked at, and
      neither error reaches the contract. */
  lemma InvokeErrorOrder(call: ApiCall, address: string, execute: Execute, other: Execute, parse: Parse, stringify: Stringify)
    ensures RequestOf(call).Err? ==> Invoke(call, address, execute, parse, stringify) == Threw(Some(RequestOf(call).error))
    ensures RequestOf(call).Err? || address == "" ==>
      Invoke(call, address, execute, parse, stringify) == Invoke(call, address, other, parse, stringify)
    ensures RequestOf(call).Ok? && address == "" ==>
      Invoke(call, address, execute, parse, stringify) == Threw(Some(MissingAddressMessage))
  {
  }
}
