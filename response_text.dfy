/** What the front end makes of the chat provider's answer: the text it
    hands to the markdown renderer when the call succeeds, and the kind of
    error screen it shows when the call throws. */
module ResponseText {
  import opened Wrappers
  import opened JsValues
  import opened JsStrings

  /** The text shown when the provider returns neither a string nor an object. */
  const NoResponse := "No response received from AI service"

  /** The four places the text is looked for, in the order they are tried:
      `message?.content`, `content`, `text` and `data`. */
  function Candidates(response: Value): (vs: seq<Value>)
    ensures |vs| == 4
  {
    [ Property(Property(response, "message"), "content"), Property(response, "content")
    , Property(response, "text"), Property(response, "data") ]
  }

  /** `message?.content || content || text || data`. */
  function OrChain(response: Value): Value {
    var vs := Candidates(response);
    Or(Or(Or(vs[0], vs[1]), vs[2]), vs[3])
  }

  /** The index of the first truthy value, or of the last value when none is. */
  function FirstTruthyIndex(vs: seq<Value>): (i: nat)
    requires |vs| > 0
    ensures i < |vs|
    ensures forall j :: 0 <= j < i ==> !Truthy(vs[j])
    ensures i < |vs| - 1 ==> Truthy(vs[i])
  {
    if |vs| == 1 || Truthy(vs[0]) then 0 else 1 + FirstTruthyIndex(vs[1..])
  }

  /** The `||` chain yields the first truthy candidate, and the last
      candidate when none of them is truthy. */
  lemma OrChainIsFirstTruthy(response: Value)
    ensures OrChain(response) == Candidates(response)[FirstTruthyIndex(Candidates(response))]
  {
    var vs := Candidates(response);
    if !Truthy(vs[0]) {
      assert vs[1..][0] == vs[1];
      if !Truthy(vs[1]) {
        assert vs[1..][1..][0] == vs[2];
        if !Truthy(vs[2]) {
          assert vs[1..][1..][1..] == [vs[3]];
        }
      }
    }
  }

  /** The display text of a successful call. `stringify` stands for
      `JSON.stringify(response, null, 2)`. */
  function ExtractText(response: Value, stringify: Value -> string): string {
    if response.Str? then response.sval
    else if Truthy(response) && IsObjectType(response) then
      var chosen := OrChain(response);
      if chosen.Str? then chosen.sval else stringify(response)
    else NoResponse
  }

  /** The selection rule, case by case: a string is used as it is; an array
      or object gives the first truthy candidate when that is a string, the
      last candidate when none is truthy and that one is a string (possibly
      empty), and its JSON otherwise; any other value gives the fixed notice. */
  lemma ExtractTextCases(response: Value, stringify: Value -> string)
    ensures response.Str? ==> ExtractText(response, stringify) == response.sval
    ensures (response.Arr? || response.Obj?) ==>
      var vs := Candidates(response);
      var i := FirstTruthyIndex(vs);
      && i < 4 && (forall j :: 0 <= j < i ==> !Truthy(vs[j])) && (i < 3 ==> Truthy(vs[i]))
      && ExtractText(response, stringify) == (if vs[i].Str? then vs[i].sval else stringify(response))
    ensures !response.Str? && !response.Arr? && !response.Obj? ==> ExtractText(response, stringify) == NoResponse
  {
    OrChainIsFirstTruthy(response);
  }

  /** The provider's usual answer, `{ message: { content: text } }`, yields
      that text when it is not empty, whatever the other fields hold. */
  lemma ProviderMessageIsUsed(text: string, rest: map<string, Value>, inner: map<string, Value>, stringify: Value -> string)
    requires text != ""
    ensures ExtractText(Obj(rest["message" := Obj(inner["content" := Str(text)])]), stringify) == text
  {
  }

  /** An object whose first three candidates are falsy and whose `data` is
      the empty string yields the empty string, not its JSON. */
  lemma EmptyDataIsKept(props: map<string, Value>, stringify: Value -> string)
    requires "data" in props && props["data"] == Str("")
    requires !Truthy(Candidates(Obj(props))[0]) && !Truthy(Candidates(Obj(props))[1])
    requires !Truthy(Candidates(Obj(props))[2])
    ensures ExtractText(Obj(props), stringify) == ""
  {
  }

  /** An object holding none of the four names is shown as its JSON. */
  lemma BareObjectIsStringified(props: map<string, Value>, stringify: Value -> string)
    requires "message" !in props && "content" !in props && "text" !in props && "data" !in props
    ensures ExtractText(Obj(props), stringify) == stringify(Obj(props))
  {
  }

  // Error classification.

  datatype ErrorKind = AuthRequired | RateLimited | Generic

  const RateLimitMessage := "RATE_LIMIT_EXCEEDED"

  /** The error screen chosen from the thrown error's `message`, `None` when
      it has none: a non-empty message holding `401` asks for
      authentication; the exact rate-limit message reports a service issue;
      anything else is a generic error. */
  function ClassifyError(message: Option<string>): ErrorKind {
    if message.Some? && message.value != "" && Contains(message.value, "401") then AuthRequired
    else if message == Some(RateLimitMessage) then RateLimited
    else Generic
  }

  /** The rate-limit message does not hold `401`, so the authentication test
      that comes first does not shadow it. */
  lemma RateLimitMessageLacks401()
    ensures !Contains(RateLimitMessage, "401")
  {
    forall i | 0 <= i <= |RateLimitMessage| - 3
      ensures !OccursAt(RateLimitMessage, i, "401")
    {
      assert RateLimitMessage[i] != '4';
      assert RateLimitMessage[i..i + 3][0] == RateLimitMessage[i];
    }
  }

  lemma AuthRequiredIff(message: Option<string>)
    ensures ClassifyError(message) == AuthRequired <==> message.Some? && Contains(message.value, "401")
  {
    if message.Some? && Contains(message.value, "401") {
      var i :| 0 <= i <= |message.value| - 3 && OccursAt(message.value, i, "401");
      assert message.value[i] == '4';
    }
  }

  lemma RateLimitedIff(message: Option<string>)
    ensures ClassifyError(message) == RateLimited <==> message == Some(RateLimitMessage)
  {
    RateLimitMessageLacks401();
  }

  /** A missing or empty message is a generic error. */
  lemma NoMessageIsGeneric()
    ensures ClassifyError(None) == Generic && ClassifyError(Some("")) == Generic
  {
  }
}
