/** The request validators of the order and AI routes. Each validator chain
    checks the string form of one body field; every failing check adds its
    message, and a request with any message is refused with 400. */
module Validators {
  import opened Common
  import opened Text
  import opened OrderService

  /** A body field as the validators see it: absent, JSON null, a string or an
      integer. */
  datatype Field = Absent | Null | Str(s: string) | Num(n: int)

  /** The string a validator checks: "" for an absent or null field, the
      decimal text for a number. */
  function StringForm(f: Field): string {
    match f
    case Absent => ""
    case Null => ""
    case Str(s) => s
    case Num(n) => IntToString(n)
  }

  predicate IsHexDigit(c: char) {
    ('0' <= c <= '9') || ('a' <= c <= 'f') || ('A' <= c <= 'F')
  }

  predicate AllHex(s: string) {
    forall i :: 0 <= i < |s| ==> IsHexDigit(s[i])
  }

  /** `isHexadecimal`: one or more hex digits, optionally after a 0x or 0h
      prefix in either case. */
  predicate IsHexadecimal(s: string) {
    || (|s| >= 1 && AllHex(s))
    || (|s| >= 3 && s[0] == '0' && s[1] in "xXhH" && AllHex(s[2..]))
  }

  /** `isMongoId`: hexadecimal text of length 24. */
  predicate IsMongoId(s: string) {
    |s| == 24 && IsHexadecimal(s)
  }

  /** Every id the database hands out (24 hex digits) passes, and nothing of
      another length does. */
  lemma MongoIdShape(s: string)
    ensures |s| == 24 && AllHex(s) ==> IsMongoId(s)
    ensures IsMongoId(s) ==> |s| == 24 && s != ""
  {
  }

  /** `isInt`: an optional sign and one or more digits (leading zeros allowed). */
  predicate IsIntText(s: string) {
    var u := SignStripped(s);
    |u| >= 1 && AllDigits(u)
  }

  /** The value of integer text. */
  function IntTextValue(s: string): int
    requires IsIntText(s)
  {
    var v: int := DigitsValue(SignStripped(s));
    if s[0] == '-' then -v else v
  }

  /** `isInt({ min })`. */
  predicate IsIntAtLeast(s: string, min: int) {
    IsIntText(s) && IntTextValue(s) >= min
  }

  /** A JSON integer passes `isInt({ min: 1 })` exactly when it is at least 1. */
  lemma {:induction false} IntegerQuantityCheck(n: int)
    ensures IsIntAtLeast(StringForm(Num(n)), 1) <==> n >= 1
  {
    var m: nat := if n < 0 then -n else n;
    var d := NatToString(m);
    NatToStringRoundTrip(m);
    var s := IntToString(n);
    if n < 0 {
      assert s == "-" + d && s[0] == '-';
      assert SignStripped(s) == d;
    } else {
      assert s == d;
      assert IsDigit(d[0]);
      assert SignStripped(s) == d;
    }
  }

  /** One requested line as the body carries it. */
  datatype ItemFields = ItemFields(productId: Field, quantity: Field)

  /** The body of a create-order request. `items` is `None` when the field is
      absent or not an array. */
  datatype CreateOrderBody = CreateOrderBody(
    items: Option<seq<ItemFields>>,
    street: Field,
    city: Field,
    state: Field,
    zipCode: Field)

  /** One validator of a wildcard chain such as `items.*.productId`: the
      validator visits every item in array order and adds `message` once for
      each item it rejects. */
  function PerItem(items: seq<ItemFields>, rejects: ItemFields -> bool, message: string): (r: seq<string>)
    ensures |r| <= |items|
    ensures forall k :: 0 <= k < |r| ==> r[k] == message
    ensures r == [] <==> forall i :: 0 <= i < |items| ==> !rejects(items[i])
    decreases |items|
  {
    if items == [] then []
    else
      var rest := PerItem(items[1..], rejects, message);
      assert forall i :: 1 <= i < |items| ==> items[i] == items[1..][i - 1];
      (if rejects(items[0]) then [message] else []) + rest
  }

  const NoItems := "Order must have at least one item"
  const IdRequired := "Product ID is required for each item"
  const IdInvalid := "Invalid product ID format"
  const QuantityRequired := "Quantity is required for each item"
  const QuantityTooSmall := "Quantity must be at least 1"

  /** The `items.*.productId` chain: express-validator runs the chain
      validator by validator, so every item's "required" message comes before
      any item's "format" message. */
  function ProductIdErrors(items: seq<ItemFields>): (r: seq<string>)
    ensures forall k :: 0 <= k < |r| ==> r[k] == IdRequired || r[k] == IdInvalid
  {
    PerItem(items, (it: ItemFields) => StringForm(it.productId) == "", IdRequired)
    + PerItem(items, (it: ItemFields) => !IsMongoId(StringForm(it.productId)), IdInvalid)
  }

  /** The `items.*.quantity` chain, validator by validator as above. */
  function QuantityErrors(items: seq<ItemFields>): (r: seq<string>)
    ensures forall k :: 0 <= k < |r| ==> r[k] == QuantityRequired || r[k] == QuantityTooSmall
  {
    PerItem(items, (it: ItemFields) => StringForm(it.quantity) == "", QuantityRequired)
    + PerItem(items, (it: ItemFields) => !IsIntAtLeast(StringForm(it.quantity), 1), QuantityTooSmall)
  }

  /** A required text: its message when the text is empty. */
  function Required(text: string, message: string): (r: seq<string>)
    ensures r == [] <==> text != ""
    ensures forall k :: 0 <= k < |r| ==> r[k] == message
  {
    if text == "" then [message] else []
  }

  const AddressMessages := {"Street address is required", "City is required", "State is required", "Zip code is required"}

  /** The four address chains, in declaration order, on the fields as trimmed
      by the sanitizer: one message per field left empty. */
  function AddressErrors(street: string, city: string, state: string, zipCode: string): (r: seq<string>)
    ensures |r| <= 4
    ensures forall k :: 0 <= k < |r| ==> r[k] in AddressMessages
  {
    Required(street, "Street address is required")
    + Required(city, "City is required")
    + Required(state, "State is required")
    + Required(zipCode, "Zip code is required")
  }

  /** The address chains pass exactly when no trimmed field is empty. */
  lemma AddressErrorsEmpty(street: string, city: string, state: string, zipCode: string)
    ensures AddressErrors(street, city, state, zipCode) == [] <==>
      street != "" && city != "" && state != "" && zipCode != ""
  {
  }

  /** A list of four concatenated parts is empty exactly when each part is. */
  lemma ConcatEmpty(a: seq<string>, b: seq<string>, c: seq<string>, d: seq<string>)
    ensures a + (b + c + d) == [] <==> a == [] && b == [] && c == [] && d == []
  {
    assert |a + (b + c + d)| == |a| + |b| + |c| + |d|;
  }

  /** `createOrderValidator`: the messages of every failing check, chain by
      chain in declaration order, and within an item chain validator by
      validator. */
  function CreateOrderErrors(body: CreateOrderBody): (r: seq<string>)
    ensures var items := if body.items.Some? then body.items.value else [];
      r == [] <==>
        && body.items.Some? && |body.items.value| >= 1
        && ProductIdErrors(items) == [] && QuantityErrors(items) == []
        && AddressErrors(Trim(StringForm(body.street)), Trim(StringForm(body.city)),
                         Trim(StringForm(body.state)), Trim(StringForm(body.zipCode))) == []
  {
    var items := if body.items.Some? then body.items.value else [];
    var prefix := if body.items.Some? && |body.items.value| >= 1 then [] else [NoItems];
    var address := AddressErrors(Trim(StringForm(body.street)), Trim(StringForm(body.city)),
                                 Trim(StringForm(body.state)), Trim(StringForm(body.zipCode)));
    ConcatEmpty(prefix, ProductIdErrors(items), QuantityErrors(items), address);
    prefix + (ProductIdErrors(items) + QuantityErrors(items) + address)
  }

  /** A missing or empty item list is reported first, and only then is the
      first message the item-list message. */
  lemma {:induction false} CreateOrderFirstMessage(body: CreateOrderBody)
    ensures var r := CreateOrderErrors(body);
      (|r| >= 1 && r[0] == NoItems) <==> (body.items.None? || body.items.value == [])
  {
    var items := if body.items.Some? then body.items.value else [];
    var address := AddressErrors(Trim(StringForm(body.street)), Trim(StringForm(body.city)),
                                 Trim(StringForm(body.state)), Trim(StringForm(body.zipCode)));
    FirstNotNoItems(ProductIdErrors(items), QuantityErrors(items), address);
    assert CreateOrderErrors(body)
      == (if body.items.Some? && |body.items.value| >= 1 then [] else [NoItems])
         + (ProductIdErrors(items) + QuantityErrors(items) + address);
  }

  /** No message of the item chains or of the address chains is the
      item-list message. */
  lemma FirstNotNoItems(ids: seq<string>, quantities: seq<string>, address: seq<string>)
    requires forall k :: 0 <= k < |ids| ==> ids[k] == IdRequired || ids[k] == IdInvalid
    requires forall k :: 0 <= k < |quantities| ==> quantities[k] == QuantityRequired || quantities[k] == QuantityTooSmall
    requires forall k :: 0 <= k < |address| ==> address[k] in AddressMessages
    ensures var rest := ids + quantities + address; |rest| >= 1 ==> rest[0] != NoItems
  {
    if |ids| >= 1 {
      assert (ids + quantities + address)[0] == ids[0];
    } else if |quantities| >= 1 {
      assert (ids + quantities + address)[0] == quantities[0];
    } else if |address| >= 1 {
      assert (ids + quantities + address)[0] == address[0];
    }
  }

  lemma ProductIdErrorsEmpty(items: seq<ItemFields>)
    ensures ProductIdErrors(items) == [] <==>
      forall i :: 0 <= i < |items| ==> IsMongoId(StringForm(items[i].productId))
  {
  }

  lemma QuantityErrorsEmpty(items: seq<ItemFields>)
    ensures QuantityErrors(items) == [] <==>
      forall i :: 0 <= i < |items| ==> IsIntAtLeast(StringForm(items[i].quantity), 1)
  {
  }

  /** Within the product-id chain the "required" messages all come first: one
      per item with an empty id, then one "format" message per item whose id
      is not an object id. */
  lemma ProductIdMessagesByValidator(items: seq<ItemFields>)
    ensures var r := ProductIdErrors(items);
      forall i, j :: 0 <= i < j < |r| && r[j] == IdRequired ==> r[i] == IdRequired
  {
    var req := PerItem(items, (it: ItemFields) => StringForm(it.productId) == "", IdRequired);
    var bad := PerItem(items, (it: ItemFields) => !IsMongoId(StringForm(it.productId)), IdInvalid);
    var r := ProductIdErrors(items);
    assert r == req + bad;
    forall k | |req| <= k < |r|
      ensures r[k] == IdInvalid
    {
      assert r[k] == bad[k - |req|];
    }
  }

  /** With an id that is not an object id followed by an empty one, the
      second item's "required" message comes first, then both "format"
      messages. */
  lemma ProductIdMessagesExample()
    ensures ProductIdErrors([ItemFields(Str("abc"), Num(1)), ItemFields(Str(""), Num(1))])
      == [IdRequired, IdInvalid, IdInvalid]
  {
    var items := [ItemFields(Str("abc"), Num(1)), ItemFields(Str(""), Num(1))];
    assert items[1..] == [ItemFields(Str(""), Num(1))];
    assert !IsMongoId("abc") && !IsMongoId("");
  }

  /** Every field of a create-order body passes its chains: at least one
      item, every product id an object id, every quantity an integer of at
      least 1, and every address field has text other than white space. */
  predicate OrderBodyOk(body: CreateOrderBody) {
    && body.items.Some? && |body.items.value| >= 1
    && (forall i :: 0 <= i < |body.items.value| ==>
          IsMongoId(StringForm(body.items.value[i].productId))
          && IsIntAtLeast(StringForm(body.items.value[i].quantity), 1))
    && Trim(StringForm(body.street)) != "" && Trim(StringForm(body.city)) != ""
    && Trim(StringForm(body.state)) != "" && Trim(StringForm(body.zipCode)) != ""
  }

  /** A create-order body is accepted exactly when every field passes. */
  lemma {:induction false} CreateOrderAccepted(body: CreateOrderBody)
    ensures CreateOrderErrors(body) == [] <==> OrderBodyOk(body)
  {
    if CreateOrderErrors(body) == [] {
      AcceptedOnlyIfOk(body);
    }
    if OrderBodyOk(body) {
      AcceptedIfOk(body);
    }
  }

  lemma {:induction false} AcceptedOnlyIfOk(body: CreateOrderBody)
    requires CreateOrderErrors(body) == []
    ensures OrderBodyOk(body)
  {
    AddressErrorsEmpty(Trim(StringForm(body.street)), Trim(StringForm(body.city)),
                       Trim(StringForm(body.state)), Trim(StringForm(body.zipCode)));
    ProductIdErrorsEmpty(body.items.value);
    QuantityErrorsEmpty(body.items.value);
  }

  lemma {:induction false} AcceptedIfOk(body: CreateOrderBody)
    requires OrderBodyOk(body)
    ensures CreateOrderErrors(body) == []
  {
    var items := body.items.value;
    AddressErrorsEmpty(Trim(StringForm(body.street)), Trim(StringForm(body.city)),
                       Trim(StringForm(body.state)), Trim(StringForm(body.zipCode)));
    assert forall i :: 0 <= i < |items| ==> IsMongoId(StringForm(items[i].productId));
    ProductIdErrorsEmpty(items);
    assert forall i :: 0 <= i < |items| ==> IsIntAtLeast(StringForm(items[i].quantity), 1);
    QuantityErrorsEmpty(items);
  }

  /** The address the handler receives after the trim sanitizers: each field
      trimmed, and for an accepted body none of them empty. */
  function SanitizedAddress(body: CreateOrderBody): (a: Address)
    ensures IsTrimmed(a.street) && IsTrimmed(a.city) && IsTrimmed(a.state) && IsTrimmed(a.zipCode)
    ensures CreateOrderErrors(body) == [] ==> a.street != "" && a.city != "" && a.state != "" && a.zipCode != ""
  {
    CreateOrderAccepted(body);
    Address(Trim(StringForm(body.street)), Trim(StringForm(body.city)),
            Trim(StringForm(body.state)), Trim(StringForm(body.zipCode)))
  }

  /** `updateOrderStatusValidator`. */
  function UpdateStatusErrors(status: Field): (r: seq<string>)
    ensures |r| <= 2
    ensures r == [] <==> StringForm(status) in StatusNames
  {
    var s := StringForm(status);
    (if s == "" then ["Status is required"] else [])
    + (if s !in StatusNames then ["Invalid order status"] else [])
  }

  /** The route's status check and the service's whitelist agree: a status
      passes validation exactly when the service accepts it. */
  lemma UpdateStatusAgreesWithService(status: Field)
    ensures UpdateStatusErrors(status) == [] <==> ParseStatus(StringForm(status)).Some?
    ensures StringForm(status) == "" ==> UpdateStatusErrors(status) == ["Status is required", "Invalid order status"]
  {
  }

  /** `aiQueryValidator`. Lengths count characters (code points). */
  function AiQueryErrors(question: Field, productId: Field): (r: seq<string>)
    ensures |r| <= 3
    ensures r == [] <==>
      && 5 <= |Trim(StringForm(question))| <= 500
      && (productId == Absent || IsMongoId(StringForm(productId)))
  {
    QuestionErrors(Trim(StringForm(question))) + OptionalIdErrors(productId)
  }

  /** The `question` chain after the trim sanitizer: required, then 5 to 500
      long. */
  function QuestionErrors(q: string): (r: seq<string>)
    ensures |r| <= 2
    ensures r == [] <==> 5 <= |q| <= 500
  {
    (if q == "" then ["Question is required"] else [])
    + (if !(5 <= |q| <= 500) then ["Question must be between 5 and 500 characters"] else [])
  }

  /** The `productId` chain: skipped when the field is left out. */
  function OptionalIdErrors(productId: Field): (r: seq<string>)
    ensures r == [] <==> productId == Absent || IsMongoId(StringForm(productId))
    ensures r != [] ==> r == [IdInvalid]
  {
    if productId != Absent && !IsMongoId(StringForm(productId)) then [IdInvalid] else []
  }

  /** `optional()` skips only a field that is left out: a null product id is
      checked as the empty string and draws the format message. */
  lemma OptionalSkipsOnlyAbsent()
    ensures OptionalIdErrors(Absent) == []
    ensures OptionalIdErrors(Null) == [IdInvalid]
  {
    assert !IsMongoId(StringForm(Null));
  }

  /** A question of only white space is refused with both question
      messages, whatever the product id. */
  lemma AiQueryBlankQuestion(question: string, productId: Field)
    requires AllSpace(question)
    ensures AiQueryErrors(Str(question), productId)[..2]
      == ["Question is required", "Question must be between 5 and 500 characters"]
  {
    assert Trim(StringForm(Str(question))) == "";
  }

  /** A validated order body always reaches the service with items, so the
      service's empty-order error is only reached without the validator. */
  lemma ValidatedOrderHasItems(body: CreateOrderBody)
    requires CreateOrderErrors(body) == []
    ensures body.items.Some? && body.items.value != []
  {
  }
}
