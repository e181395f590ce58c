/**
  The generation call as the dashboard sees it after the `await`s: no token,
  a thrown error (network failure or a body that is not JSON), or an HTTP
  reply with its `ok` flag and JSON body. The body is read leniently:
  a missing or `null` title becomes "Flashcards", a `flashcards` member that
  is not an array becomes no cards, and a failed reply's message is its
  `error` member or "Failed to generate".
 */
module Response {
  import opened Text
  import opened Cards

  /** A JSON value; a number is kept as the text JavaScript prints for it. */
  datatype Json =
    | JNull
    | JBool(b: bool)
    | JNumber(text: string)
    | JString(s: string)
    | JArray(items: seq<Json>)
    | JObject(members: map<string, Json>)

  /**
    `String(v)` throws on `v` exactly when `v` is, or is an array holding at
    any depth, an object with its own `toString` member: JSON cannot make
    that member callable, so the conversion falls back on `valueOf`, which
    gives back the object itself, and no primitive is found. Members of an
    object are never converted, so only arrays are looked into.
   */
  predicate Unconvertible(j: Json) {
    match j
    case JObject(members) => "toString" in members
    case JArray(items) => exists i :: 0 <= i < |items| && Unconvertible(items[i])
    case _ => false
  }

  /** All the texts, when every one of them was produced. */
  function Collect(ps: seq<Option<string>>): (r: Option<seq<string>>)
    ensures r.Some? <==> forall i :: 0 <= i < |ps| ==> ps[i].Some?
    ensures r.Some? ==> |r.value| == |ps| && forall i :: 0 <= i < |ps| ==> r.value[i] == ps[i].value
  {
    if ps == [] then Some([])
    else
      match ps[0]
      case None => None
      case Some(t) =>
        match Collect(ps[1..])
        case None => None
        case Some(ts) => Some([t] + ts)
  }

  /**
    JavaScript's `String(v)`, which is also the message `new Error(v)`
    carries, or `None` where the conversion throws a TypeError: arrays print
    their items joined by commas, with `null` items printed as nothing;
    objects print as "[object Object]" unless they carry their own
    `toString` member.
   */
  function ToText(j: Json): Option<string> {
    match j
    case JNull => Some("null")
    case JBool(b) => Some(if b then "true" else "false")
    case JNumber(t) => Some(t)
    case JString(s) => Some(s)
    case JArray(items) =>
      var parts := Collect(seq(|items|, i requires 0 <= i < |items| => if items[i].JNull? then Some("") else ToText(items[i])));
      if parts.Some? then Some(Join(parts.value, ",")) else None
    case JObject(members) => if "toString" in members then None else Some("[object Object]")
  }

  /** The conversion fails exactly on the values `Unconvertible` describes. */
  lemma {:induction false} ToTextFailsIff(j: Json)
    ensures ToText(j).None? <==> Unconvertible(j)
  {
    match j
    case JArray(items) =>
      var ps := seq(|items|, i requires 0 <= i < |items| => if items[i].JNull? then Some("") else ToText(items[i]));
      forall i | 0 <= i < |items|
        ensures ps[i].None? <==> Unconvertible(items[i])
      {
        ToTextFailsIff(items[i]);
      }
    case _ =>
  }

  /** The `flashcards` member when it is something other than an array. */
  type NonArray = j: Json | !j.JArray? witness JNull

  /** The `flashcards` member: an array of cards, or some other JSON value. */
  datatype CardsMember = CardArray(cards: seq<Flashcard>) | NotArray(value: NonArray)

  /**
    The three members of the reply body that the dashboard reads; `None` is
    a missing member. A body that is not an object has none of them.
   */
  datatype Body = Body(title: Option<Json>, flashcards: Option<CardsMember>, error: Option<Json>)

  /** How the call ended, as seen after awaiting the token, `fetch` and `res.json()`. */
  datatype Outcome =
    | NoToken
    | Threw(message: string)
    | Replied(ok: bool, body: Body)

  const DefaultTitle: string := "Flashcards"
  const GenericFailure: string := "Failed to generate"
  const NoTokenMessage: string := "Please log in again."
  /** The message of the TypeError `String` throws, in the wording of the V8 engine. */
  const ConversionError: string := "Cannot convert object to primitive value"

  /** `m ?? fallback` falls back on a missing member and on `null`. */
  predicate Nullish(m: Option<Json>) {
    m.None? || m == Some(JNull)
  }

  /** `String(json?.title ?? "Flashcards")`, or `None` where it throws. */
  function NormaliseTitle(b: Body): Option<string> {
    if Nullish(b.title) then Some(DefaultTitle) else ToText(b.title.value)
  }

  /** `Array.isArray(json?.flashcards) ? json.flashcards : []`. */
  function NormaliseCards(b: Body): seq<Flashcard> {
    match b.flashcards
    case Some(CardArray(cards)) => cards
    case _ => []
  }

  /**
    The message of the error a failed reply leads to: `new Error(json?.error
    ?? "Failed to generate")`, whose construction itself throws a TypeError
    when the member cannot be converted to a string.
   */
  function ErrorMessage(b: Body): string {
    if Nullish(b.error) then GenericFailure
    else
      match ToText(b.error.value)
      case None => ConversionError
      case Some(m) => m
  }

  /** A generated set: a title and its cards, always replaced together. */
  datatype Generated = Generated(title: string, cards: seq<Flashcard>)

  /** What the dashboard makes of the call: a new set, or the message it shows. */
  datatype Reply = Success(result: Generated) | Failure(message: string)

  /**
    The try/catch of `generate`: only an `ok` reply whose title converts
    succeeds, whatever else its body looks like; every other ending is a
    failure with its message.
   */
  function Interpret(o: Outcome): (r: Reply)
    ensures r.Success? <==> o.Replied? && o.ok && NormaliseTitle(o.body).Some?
    ensures r.Success? ==> r.result == Generated(NormaliseTitle(o.body).value, NormaliseCards(o.body))
    ensures o.NoToken? ==> r == Failure(NoTokenMessage)
    ensures o.Threw? ==> r == Failure(o.message)
    ensures o.Replied? && !o.ok ==> r == Failure(ErrorMessage(o.body))
    ensures o.Replied? && o.ok && NormaliseTitle(o.body).None? ==> r == Failure(ConversionError)
  {
    match o
    case NoToken => Failure(NoTokenMessage)
    case Threw(m) => Failure(m)
    case Replied(ok, body) =>
      if !ok then Failure(ErrorMessage(body))
      else
        match NormaliseTitle(body)
        case None => Failure(ConversionError)
        case Some(title) => Success(Generated(title, NormaliseCards(body)))
  }

  /** The body a well-behaved endpoint sends for a set. */
  function Encode(g: Generated): Body {
    Body(Some(JString(g.title)), Some(CardArray(g.cards)), None)
  }

  /** A well-formed `ok` reply is taken exactly as sent. */
  lemma InterpretEncoded(g: Generated)
    ensures Interpret(Replied(true, Encode(g))) == Success(g)
  {
  }

  /**
    Normalisation fails on one shape only: an `ok` reply yields a set unless
    its title is a value `String` cannot convert, and then the call fails
    with the TypeError's message. The title is "Flashcards" when the member
    is missing or null and the stringified member otherwise; the cards are
    the `flashcards` array, or none when that member is missing or not an
    array.
   */
  lemma InterpretLenient(b: Body)
    ensures Interpret(Replied(true, b)).Success? <==> Nullish(b.title) || !Unconvertible(b.title.value)
    ensures !Nullish(b.title) && Unconvertible(b.title.value) ==> Interpret(Replied(true, b)) == Failure(ConversionError)
    ensures Nullish(b.title) ==> Interpret(Replied(true, b)).result.title == DefaultTitle
    ensures !Nullish(b.title) && !Unconvertible(b.title.value) ==>
      ToText(b.title.value).Some? && Interpret(Replied(true, b)).result.title == ToText(b.title.value).value
    ensures Nullish(b.title) || !Unconvertible(b.title.value) ==>
      Interpret(Replied(true, b)).result.cards == if b.flashcards.Some? && b.flashcards.value.CardArray? then b.flashcards.value.cards else []
  {
    if !Nullish(b.title) {
      ToTextFailsIff(b.title.value);
    }
  }

  /** A failed reply fails with its `error` member as a string, or with the TypeError's message where that member cannot be converted. */
  lemma FailedReplyMessage(b: Body)
    requires !Nullish(b.error)
    ensures Unconvertible(b.error.value) ==> Interpret(Replied(false, b)) == Failure(ConversionError)
    ensures !Unconvertible(b.error.value) ==>
      ToText(b.error.value).Some? && Interpret(Replied(false, b)) == Failure(ToText(b.error.value).value)
  {
    ToTextFailsIff(b.error.value);
  }

  /** A string title is kept verbatim; a number is printed; an array is joined; an object with its own `toString` cannot be printed. */
  lemma ToTextExamples()
    ensures ToText(JString("Chem")) == Some("Chem")
    ensures ToText(JNumber("42")) == Some("42")
    ensures ToText(JArray([JString("a"), JNull, JBool(true)])) == Some("a,,true")
    ensures ToText(JObject(map[])) == Some("[object Object]")
    ensures ToText(JArray([JString("a"), JObject(map["toString" := JNumber("1")])])) == None
  {
    var items := [JString("a"), JNull, JBool(true)];
    var ps := seq(|items|, i requires 0 <= i < |items| => if items[i].JNull? then Some("") else ToText(items[i]));
    assert ps == [Some("a"), Some(""), Some("true")];
    var parts := ["a", "", "true"];
    var r := Collect(ps);
    assert r.Some? && r.value[0] == "a" && r.value[1] == "" && r.value[2] == "true";
    assert r.value == parts;
    assert Join(parts, ",") == "a" + "," + Join(["", "true"], ",");
    assert Join(["", "true"], ",") == "" + "," + Join(["true"], ",");
    assert Join(parts, ",") == "a,,true";
    assert ToText(JArray(items)) == Some(Join(parts, ","));
    var bad := [JString("a"), JObject(map["toString" := JNumber("1")])];
    var qs := seq(|bad|, i requires 0 <= i < |bad| => if bad[i].JNull? then Some("") else ToText(bad[i]));
    assert qs[1] == None;
  }

  /**
    A reply `{ flashcards: "not-an-array" }` gives no cards and the default
    title; a failed reply `{ error: "too long" }` fails with "too long"; an
    `ok` reply `{ title: { toString: 1 } }` fails with the TypeError.
   */
  lemma InterpretExamples()
    ensures Interpret(Replied(true, Body(None, Some(NotArray(JString("not-an-array"))), None)))
            == Success(Generated(DefaultTitle, []))
    ensures Interpret(Replied(false, Body(None, None, Some(JString("too long"))))) == Failure("too long")
    ensures Interpret(Replied(false, Body(None, None, None))) == Failure(GenericFailure)
    ensures Interpret(Replied(true, Body(Some(JObject(map["toString" := JNumber("1")])), None, None)))
            == Failure(ConversionError)
  {
  }
}
