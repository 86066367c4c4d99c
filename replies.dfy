/**
 * Unwrapping of a language-model reply into text.
 *
 * The client (`ChatbotResponse.getText`, and `responseText` of the older
 * client) and the server (the clean-up before `/api/chat` answers) each pick
 * text out of a reply that is either a string or a LangChain message object.
 * Replies are modelled as JavaScript values; `JSON.stringify` of an object is
 * a parameter, since its output format is not part of the pipeline.
 */
module Replies {

  /** The JavaScript values a reply can be; objects are maps from property names. */
  datatype JsValue =
    | Undefined
    | Null
    | Bool(b: bool)
    | Number(n: int)
    | Str(s: string)
    | Object(fields: map<string, JsValue>)

  /** JavaScript truthiness. */
  predicate Truthy(v: JsValue) {
    match v
    case Undefined => false
    case Null => false
    case Bool(b) => b
    case Number(n) => n != 0
    case Str(s) => s != ""
    case Object(_) => true
  }

  /** Property read `v.key`: a missing property, or a property of a non-object, reads as `undefined`. */
  function Get(v: JsValue, key: string): JsValue {
    if v.Object? && key in v.fields then v.fields[key] else Undefined
  }

  const NoResponse: string := "No response received"

  /**
   * `getText` / `responseText`: a string is returned as it is; an object gives
   * its defined `content`, else its truthy `kwargs.content`, else its JSON
   * text; anything else gives the no-response message.
   */
  function GetText(response: JsValue, stringify: JsValue -> string): JsValue {
    match response
    case Str(_) => response
    case Object(_) =>
      if Get(response, "content") != Undefined then Get(response, "content")
      else if Truthy(Get(response, "kwargs")) && Truthy(Get(Get(response, "kwargs"), "content")) then
        Get(Get(response, "kwargs"), "content")
      else Str(stringify(response))
    case _ => Str(NoResponse)
  }

  /**
   * The server's clean-up: a string is kept; otherwise the truthy `content`
   * property, else `JSON.stringify` (which gives `undefined` for `undefined`).
   */
  function CleanResponse(finalContent: JsValue, stringify: JsValue -> string): JsValue {
    if finalContent.Str? then finalContent
    else if Truthy(Get(finalContent, "content")) then Get(finalContent, "content")
    else if finalContent == Undefined then Undefined
    else Str(stringify(finalContent))
  }

  /** The priority order of `getText`, case by case. */
  lemma UnwrapPriority(response: JsValue, stringify: JsValue -> string)
    ensures response.Str? ==> GetText(response, stringify) == response
    ensures response.Object? && Get(response, "content") != Undefined ==>
      GetText(response, stringify) == Get(response, "content")
    ensures response.Object? && Get(response, "content") == Undefined && Truthy(Get(Get(response, "kwargs"), "content")) ==>
      GetText(response, stringify) == Get(Get(response, "kwargs"), "content")
    ensures response.Object? && Get(response, "content") == Undefined && !Truthy(Get(Get(response, "kwargs"), "content")) ==>
      GetText(response, stringify) == Str(stringify(response))
    ensures !response.Str? && !response.Object? ==> GetText(response, stringify) == Str(NoResponse)
  {
    if response.Object? && Get(response, "content") == Undefined && Truthy(Get(Get(response, "kwargs"), "content")) {
      assert Truthy(Get(response, "kwargs"));
    }
  }

  /**
   * The result of `getText` is text exactly when the reply is not an object
   * whose chosen `content` (or `kwargs.content`) is a non-string value.
   */
  lemma UnwrapIsText(response: JsValue, stringify: JsValue -> string)
    ensures GetText(response, stringify).Str? <==>
      !(response.Object? &&
        ((Get(response, "content") != Undefined && !Get(response, "content").Str?) ||
         (Get(response, "content") == Undefined && Truthy(Get(Get(response, "kwargs"), "content")) &&
          !Get(Get(response, "kwargs"), "content").Str?)))
  {
    UnwrapPriority(response, stringify);
  }

  /** Unwrapping text again changes nothing. */
  lemma UnwrapIdempotent(response: JsValue, stringify: JsValue -> string)
    requires GetText(response, stringify).Str?
    ensures GetText(GetText(response, stringify), stringify) == GetText(response, stringify)
  {
  }

  /**
   * Client and server agree on strings and on objects with a truthy `content`;
   * they part on an object whose `content` is defined but falsy, which the
   * client returns and the server serializes.
   */
  lemma ClientServerUnwrapAgree(v: JsValue, stringify: JsValue -> string)
    ensures v.Str? ==> GetText(v, stringify) == CleanResponse(v, stringify) == v
    ensures v.Object? && Truthy(Get(v, "content")) ==>
      GetText(v, stringify) == CleanResponse(v, stringify) == Get(v, "content")
    ensures v.Object? && Get(v, "content") != Undefined && !Truthy(Get(v, "content")) ==>
      GetText(v, stringify) == Get(v, "content") && CleanResponse(v, stringify) == Str(stringify(v))
  {
  }

  /** The server never invents text for `undefined`, while the client answers with the no-response message. */
  lemma UndefinedReply(stringify: JsValue -> string)
    ensures CleanResponse(Undefined, stringify) == Undefined
    ensures GetText(Undefined, stringify) == Str(NoResponse)
    ensures GetText(Null, stringify) == Str(NoResponse)
  {
  }
}
