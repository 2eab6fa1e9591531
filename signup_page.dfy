/** The sign-up page: the form fields, the username pattern checked before sending, and the
    way a rejected sign-up is turned into one line of error text. */
module SignupPage {
  import opened Options
  import opened Json
  import opened Dto
  import Text
  import UserSchemas

  const UsernameRule: string := "Username allows only Latin letters (a-z) and numbers (0-9). No special characters or spaces."
  const DefaultFailure: string := "Registration failed. Please try again."

  predicate IsAsciiAlnum(c: char)
  {
    'a' <= c <= 'z' || 'A' <= c <= 'Z' || '0' <= c <= '9'
  }

  /** `/^[a-zA-Z0-9]+$/.test(username)`; without the `m` flag `$` matches only at the end. */
  predicate ValidUsername(username: string)
  {
    |username| >= 1 && forall i :: 0 <= i < |username| ==> IsAsciiAlnum(username[i])
  }

  /** `formData[name]` as the regex sees it: a missing key is `undefined`, tested as that text. */
  function FieldText(formData: map<string, string>, name: string): (r: string)
    ensures name in formData ==> r == formData[name]
    ensures name !in formData ==> r == "undefined"
  {
    if name in formData then formData[name] else "undefined"
  }

  /** `value[1]` for the value of `e.loc`; reading from `undefined` or `null` throws (None). */
  function SecondOf(loc: Option<Json>): (r: Option<Option<Json>>)
    ensures r.None? <==> loc.None? || loc.value.JNull?
    ensures loc.Some? && loc.value.JArr? ==> r == Some(if |loc.value.items| > 1 then Some(loc.value.items[1]) else None)
  {
    match loc
    case None => None
    case Some(JNull) => None
    case Some(JArr(items)) => Some(if |items| > 1 then Some(items[1]) else None)
    case Some(JStr(s)) => Some(if |s| > 1 then Some(JStr([s[1]])) else None)
    case Some(JObj(fields)) => Some(FieldLookup(fields, "1"))
    case Some(_) => Some(None)
  }

  /** `${e.loc[1]}: ${e.msg}` for one entry of the list; None when reading it throws. */
  function EntryText(e: Json): (r: Option<string>)
    ensures !e.JObj? ==> r.None?
  {
    if !e.JObj? then None
    else
      var second := SecondOf(Get(e, "loc"));
      if second.None? then None
      else Some(ToJsString(second.value) + ": " + ToJsString(Get(e, "msg")))
  }

  /** The texts of all entries, or None as soon as one throws. */
  function EntryTexts(items: seq<Json>): (r: Option<seq<string>>)
    ensures r.Some? <==> forall i :: 0 <= i < |items| ==> EntryText(items[i]).Some?
    ensures r.Some? ==> |r.value| == |items| && forall i :: 0 <= i < |items| ==> r.value[i] == EntryText(items[i]).value
    decreases |items|
  {
    if items == [] then Some([])
    else
      var head := EntryText(items[0]);
      var rest := EntryTexts(items[1..]);
      assert forall i :: 1 <= i < |items| ==> items[i] == items[1..][i - 1];
      if head.None? || rest.None? then None else Some([head.value] + rest.value)
  }

  /** What a failed sign-up leaves: an error line, or an exception thrown while building it. */
  datatype Failure = Message(text: string) | Thrown

  /** The catch block of `handleSubmit`: a truthy string detail verbatim, an array detail
      flattened entry by entry, otherwise the default line. */
  function FailureText(err: ApiError): (r: Failure)
    ensures !Truthy(Detail(err)) ==> r == Message(DefaultFailure)
    ensures Truthy(Detail(err)) && Detail(err).value.JStr? ==> r == Message(Detail(err).value.s)
    ensures Truthy(Detail(err)) && !Detail(err).value.JStr? && !Detail(err).value.JArr? ==> r == Message(DefaultFailure)
    ensures Truthy(Detail(err)) && Detail(err).value.JArr? ==>
      (r.Thrown? <==> EntryTexts(Detail(err).value.items).None?)
  {
    var d := Detail(err);
    if !Truthy(d) then Message(DefaultFailure)
    else match d.value
      case JStr(s) => Message(s)
      case JArr(items) =>
        var texts := EntryTexts(items);
        if texts.None? then Thrown else Message(Text.Join(texts.value, ", "))
      case _ => Message(DefaultFailure)
  }

  /** A list entry whose `loc` is missing makes the catch block itself throw. */
  lemma EntryWithoutLocThrows(status: int, msg: string)
    ensures FailureText(HttpError(status, JObj([("detail", JArr([JObj([("msg", JStr(msg))])]))]))) == Thrown
  {
    var e := JObj([("msg", JStr(msg))]);
    assert Get(e, "loc").None?;
    assert EntryText(e).None?;
    var err := HttpError(status, JObj([("detail", JArr([e]))]));
    assert Detail(err) == Some(JArr([e]));
  }

  /** One validation error as the service's 422 body carries it (only `loc` and `msg` are read). */
  function ErrorObject(e: UserSchemas.FieldError): Json
  {
    JObj([("loc", JArr(seq(|e.loc|, i requires 0 <= i < |e.loc| => JStr(e.loc[i])))), ("msg", JStr(e.msg))])
  }

  function ValidationBody(errs: seq<UserSchemas.FieldError>): Json
  {
    JObj([("detail", JArr(seq(|errs|, i requires 0 <= i < |errs| => ErrorObject(errs[i]))))])
  }

  /** "field: message" for a `["body", field]` location. */
  function FieldLine(e: UserSchemas.FieldError): string
    requires |e.loc| >= 2
  {
    e.loc[1] + ": " + e.msg
  }

  lemma ErrorObjectText(e: UserSchemas.FieldError)
    requires |e.loc| >= 2
    ensures EntryText(ErrorObject(e)) == Some(FieldLine(e))
  {
    var o := ErrorObject(e);
    var loc := JArr(seq(|e.loc|, i requires 0 <= i < |e.loc| => JStr(e.loc[i])));
    assert o.fields[0] == ("loc", loc);
    assert Get(o, "loc") == Some(loc);
    assert o.fields[1] == ("msg", JStr(e.msg));
    assert Get(o, "msg") == Some(JStr(e.msg));
    assert SecondOf(Some(loc)) == Some(Some(JStr(e.loc[1])));
  }

  function FieldLines(errs: seq<UserSchemas.FieldError>): seq<string>
    requires forall i :: 0 <= i < |errs| ==> |errs[i].loc| >= 2
  {
    seq(|errs|, i requires 0 <= i < |errs| => FieldLine(errs[i]))
  }

  /** A 422 listing errors at `[_, field]` locations is shown as "field: message" lines joined
      by ", ", in order: the page never throws on it and never falls back to the default. */
  lemma ValidationListShownPerField(errs: seq<UserSchemas.FieldError>)
    requires forall i :: 0 <= i < |errs| ==> |errs[i].loc| >= 2
    ensures FailureText(HttpError(422, ValidationBody(errs))) == Message(Text.Join(FieldLines(errs), ", "))
  {
    var items := seq(|errs|, i requires 0 <= i < |errs| => ErrorObject(errs[i]));
    ErrorObjectsText(errs, items);
    var err := HttpError(422, ValidationBody(errs));
    assert Detail(err) == Some(JArr(items));
  }

  /** Every entry of the 422 list yields its "field: message" line. */
  lemma ErrorObjectsText(errs: seq<UserSchemas.FieldError>, items: seq<Json>)
    requires forall i :: 0 <= i < |errs| ==> |errs[i].loc| >= 2
    requires |items| == |errs| && forall i :: 0 <= i < |errs| ==> items[i] == ErrorObject(errs[i])
    ensures EntryTexts(items) == Some(FieldLines(errs))
  {
    var lines := FieldLines(errs);
    forall i | 0 <= i < |errs| ensures EntryText(items[i]) == Some(lines[i]) {
      ErrorObjectText(errs[i]);
    }
    var texts := EntryTexts(items);
    assert texts.Some?;
    assert texts.value == lines;
  }

  /** In particular the sign-up schema's own errors are shown field by field. */
  lemma SchemaErrorsShownPerField(u: UserSchemas.UserCreate, emailValid: bool)
    ensures var errs := UserSchemas.UserCreateErrors(u, emailValid);
      (forall i :: 0 <= i < |errs| ==> |errs[i].loc| >= 2)
      && FailureText(HttpError(422, ValidationBody(errs))) == Message(Text.Join(FieldLines(errs), ", "))
  {
    var errs := UserSchemas.UserCreateErrors(u, emailValid);
    assert forall i :: 0 <= i < |errs| ==> |errs[i].loc| >= 2 by {
      forall i | 0 <= i < |errs| ensures |errs[i].loc| >= 2 {
        assert errs[i] in errs;
      }
    }
    ValidationListShownPerField(errs);
  }

  /** The page's state. */
  class SignupForm {
    var formData: map<string, string>
    var error: string
    var success: bool
    var loading: bool

    constructor ()
      ensures formData == map["username" := "", "email" := "", "password" := "", "first_name" := "", "last_name" := ""]
      ensures error == "" && !success && !loading
    {
      formData := map["username" := "", "email" := "", "password" := "", "first_name" := "", "last_name" := ""];
      error, success, loading := "", false, false;
    }

    /** `handleChange`: only the field named by the input changes. */
    method HandleChange(name: string, value: string)
      modifies this
      ensures formData == old(formData)[name := value]
      ensures forall k :: k in old(formData) && k != name ==> k in formData && formData[k] == old(formData)[k]
      ensures error == old(error) && success == old(success) && loading == old(loading)
    {
      formData := formData[name := value];
    }

    /** `handleSubmit`. The error is cleared first; nothing is sent unless the username passes
        the pattern; success is set only once the service accepts. */
    method HandleSubmit(outcome: Response<()>) returns (sent: Option<map<string, string>>)
      modifies this
      ensures sent.Some? <==> ValidUsername(FieldText(old(formData), "username"))
      ensures sent.Some? ==> sent.value == old(formData)
      ensures sent.None? ==> error == UsernameRule && success == old(success)
      ensures sent.Some? && outcome.Received? ==> success && error == ""
      ensures sent.Some? && outcome.Rejected? ==> (success == old(success)
        && error == (if FailureText(outcome.error).Message? then FailureText(outcome.error).text else ""))
      ensures sent.Some? ==> !loading
      ensures sent.None? ==> loading == old(loading)
      ensures formData == old(formData)
    {
      error := "";
      if !ValidUsername(FieldText(formData, "username")) {
        error := UsernameRule;
        return None;
      }
      loading := true;
      sent := Some(formData);
      match outcome {
        case Received(_) =>
          success := true;
        case Rejected(e) =>
          var f := FailureText(e);
          if f.Message? {
            error := f.text;
          }
      }
      loading := false;
    }
  }
}
