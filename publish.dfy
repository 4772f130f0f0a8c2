/** The checks createToot makes before it posts, and the one request it then
    sends. The request itself and its response are not part of this model. */
module Publish {
  import opened Wrappers
  import opened JsValues

  /** What createToot can be handed: null (or undefined), a string, or some
      other value. */
  datatype TextArg = NullText | StringText(s: string) | OtherValue

  /** Why createToot throws before any request: reading `.length` of null
      for the log line, a non-string, or a text that trims to nothing. */
  datatype PublishError = NullDereference | NotAString | EmptyText

  /** The body of the single POST to `statuses`. */
  datatype StatusRequest = StatusRequest(status: string, sensitive: bool, visibility: string, language: string)

  /** createToot up to the request: either the status it posts or the error
      it throws without contacting the server. */
  function CreateToot(text: TextArg): (r: Result<StatusRequest, PublishError>)
    ensures r.Success? <==> text.StringText? && !AllWhitespace(text.s)
    ensures r.Success? ==> r.value.status == text.s && !r.value.sensitive
                           && r.value.visibility == "public" && r.value.language == "pt"
    ensures text.NullText? ==> r == Failure(NullDereference)
    ensures text.OtherValue? ==> r == Failure(NotAString)
    ensures text.StringText? && AllWhitespace(text.s) ==> r == Failure(EmptyText)
  {
    match text
    case NullText => Failure(NullDereference)
    case OtherValue => Failure(NotAString)
    case StringText(s) =>
      TrimEmptyIffAllWhitespace(s);
      if Trim(s) == "" then Failure(EmptyText)
      else Success(StatusRequest(s, false, "public", "pt"))
  }

  /** The empty text and a text of blanks are refused before any request. */
  lemma BlankTextsRefused()
    ensures CreateToot(StringText("")) == Failure(EmptyText)
    ensures CreateToot(StringText("   ")) == Failure(EmptyText)
    ensures CreateToot(StringText(" \n\t")) == Failure(EmptyText)
  {
  }
}
