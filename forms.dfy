/**
 * What the three forms share: the keys of their error objects, what a form receives
 * back from its one HTTP request, and the JavaScript idiom `message || 'fallback'`
 * they use to pick the text they show.
 */
module Forms {

  datatype Option<+T> = None | Some(value: T)

  /**
   * The keys of a form's `errors` object (and of its input `name` attributes):
   * one per input, plus `form` for the add-employee form's request-level error.
   */
  datatype Field = Name | Email | Password | Role | Form

  /**
   * The outcome of `await axios.post(...)`:
   * - `Transport(message)`: the call threw; `message` is `error.response?.data?.message`
   *   (None when there was no response or it carried no message);
   * - `Reply(success, message, payload)`: a reply arrived; `success` and `message` are
   *   `response.data.success` and `response.data.message`, `payload` the rest of
   *   `response.data` that the form reads.
   */
  datatype Response<P> =
    | Transport(message: Option<string>)
    | Reply(success: bool, message: Option<string>, payload: P)

  /**
   * `message || fallback` for a possibly undefined string: an undefined or empty
   * message is falsy and yields the fallback, any other message is kept.
   */
  function JsOr(message: Option<string>, fallback: string): (r: string)
    ensures message.Some? && message.value != "" ==> r == message.value
    ensures message == None || message == Some("") ==> r == fallback
    ensures fallback != "" ==> r != ""
  {
    match message
    case Some(m) => if m != "" then m else fallback
    case None => fallback
  }
}
