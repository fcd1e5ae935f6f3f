/** The contact form's submit handler with the network taken out: how the
    endpoint's answer decides the status message, its colour and whether
    the form is reset. */
module ContactForm {
  import opened Wrappers
  import opened Text

  const ThanksText := "Thanks for your message! I will get back to you soon."
  const OopsText := "Oops! There was a problem submitting your form."
  const ErrorSeparator := ", "

  /** One entry of the endpoint's `errors` list. `None` is a missing (undefined
      or null) `message`; `Some(s)` is the text `join` converts any other value
      to, so a number 5 is `Some("5")` and an object is `Some("[object Object]")`. */
  datatype ErrorEntry = ErrorEntry(message: Option<string>)

  /** How the request ended: a 2xx response; a rejection whose JSON body does
      or does not have an `errors` list; or an exception anywhere in the `try`. */
  datatype Response = Ok | Rejected(errors: Option<seq<ErrorEntry>>) | Thrown

  datatype Color = Green | Red

  /** The status paragraph the handler appends, and whether it reset the form. */
  datatype Status = Status(text: string, color: Color, resetsForm: bool)

  /** `join` writes a missing (undefined or null) element as the empty string. */
  function Rendered(message: Option<string>): string {
    match message
    case Some(m) => m
    case None => ""
  }

  /** `errors.map(error => error["message"])`, as `join` renders each element. */
  function Messages(errors: seq<ErrorEntry>): (ms: seq<string>)
    ensures |ms| == |errors|
    ensures forall k :: 0 <= k < |errors| ==> ms[k] == Rendered(errors[k].message)
    decreases |errors|
  {
    if |errors| == 0 then []
    else [Rendered(errors[0].message)] + Messages(errors[1..])
  }

  /** The decision the handler makes once the request has ended. */
  function Outcome(resp: Response): (r: Status)
    ensures r.resetsForm <==> resp.Ok?
    ensures r.color == Green <==> resp.Ok?
    ensures resp.Ok? ==> r.text == ThanksText
    ensures resp.Rejected? && resp.errors.Some? ==>
      r.text == Join(Messages(resp.errors.value), ErrorSeparator)
    ensures resp.Thrown? || resp == Rejected(None) ==> r.text == OopsText
  {
    match resp
    case Ok => Status(ThanksText, Green, true)
    case Rejected(Some(errors)) => Status(Join(Messages(errors), ErrorSeparator), Red, false)
    case Rejected(None) => Status(OopsText, Red, false)
    case Thrown => Status(OopsText, Red, false)
  }

  /** A rejection with a single error shows that error's message verbatim. */
  lemma SingleErrorShownVerbatim(m: string)
    ensures Outcome(Rejected(Some([ErrorEntry(Some(m))]))) == Status(m, Red, false)
  {
  }

  /** Every message of a rejection's `errors` list appears in the status text. */
  lemma EveryErrorMessageShown(errors: seq<ErrorEntry>, k: nat)
    requires k < |errors|
    ensures Includes(Outcome(Rejected(Some(errors))).text, Rendered(errors[k].message))
  {
    JoinIncludesEachPart(Messages(errors), ErrorSeparator, k);
  }

  /** Mapping distributes over concatenation of error lists. */
  lemma MessagesAppend(first: seq<ErrorEntry>, rest: seq<ErrorEntry>)
    ensures Messages(first + rest) == Messages(first) + Messages(rest)
  {
  }

  /** Two error messages are shown separated by exactly one ", ". */
  lemma ErrorMessagesSeparated(first: seq<ErrorEntry>, rest: seq<ErrorEntry>)
    requires |first| > 0 && |rest| > 0
    ensures Outcome(Rejected(Some(first + rest))).text
         == Outcome(Rejected(Some(first))).text + ", " + Outcome(Rejected(Some(rest))).text
  {
    MessagesAppend(first, rest);
    JoinAppend(Messages(first), Messages(rest), ErrorSeparator);
  }

  /** An empty `errors` list yields an empty red status, not the generic text. */
  lemma EmptyErrorListShowsEmptyText()
    ensures Outcome(Rejected(Some([]))) == Status("", Red, false)
  {
  }

  /** The form is reset exactly when the status is green, and a red status
      never carries the thanks text unless the endpoint itself sent it. */
  lemma GreenIffReset(resp: Response)
    ensures Outcome(resp).resetsForm <==> Outcome(resp).color == Green
    ensures Outcome(resp).text == ThanksText && !resp.Ok? ==> resp.Rejected? && resp.errors.Some?
  {
  }

  /** The form: its fields' current and default values, and the status
      paragraphs appended to it. */
  class Form {
    const defaults: seq<string>
    var fieldValues: seq<string>
    var statusNodes: seq<Status>

    /** One current value per field. */
    ghost predicate Valid()
      reads this
    {
      |fieldValues| == |defaults|
    }

    constructor (defaults: seq<string>, values: seq<string>)
      requires |values| == |defaults|
      ensures Valid()
      ensures this.defaults == defaults && fieldValues == values && statusNodes == []
    {
      this.defaults := defaults;
      fieldValues := values;
      statusNodes := [];
    }

    /** The submit handler once the request has ended with `resp`: exactly one
        status paragraph is appended, and the fields return to their defaults
        only on success. */
    method Submit(resp: Response)
      requires Valid()
      modifies this
      ensures Valid()
      ensures statusNodes == old(statusNodes) + [Outcome(resp)]
      ensures fieldValues == if resp.Ok? then defaults else old(fieldValues)
    {
      var status := Outcome(resp);
      if resp.Ok? {
        fieldValues := defaults;
      }
      statusNodes := statusNodes + [status];
    }
  }
}
