/** What a provider's answer must look like before anything in it is believed. */
module ProviderResponse {
  import opened Basics
  import opened SqlScanner
  import J = JsonDecoder
  import Payments
  import Processes

  type Fields = map<string, J.Value>

  datatype Response = Response(code: int, message: string, data: Fields)

  /** How texts are lower-cased and how number literals are read as int64; both are library calls. */
  datatype Library = Library(lower: string -> string, parseInt: string -> Option<int>)

  function RequiredString(data: Fields, key: string): Option<string> {
    if key in data && data[key].Scalar? && data[key].token.Str? && Trim(data[key].token.text) != ""
    then Some(data[key].token.text) else None
  }

  function RequiredInteger(lib: Library, data: Fields, key: string): Option<int> {
    if key in data && data[key].Scalar? && data[key].token.Num? then lib.parseInt(data[key].token.digits) else None
  }

  predicate ValidResponseFields(lib: Library, data: Fields) {
    && (forall key | key in ["authority", "fee_type", "card_hash", "card_pan"] && key in data ::
          RequiredString(data, key).Some?)
    && (forall key | key in ["fee", "ref_id"] && key in data ::
          RequiredInteger(lib, data, key).Some? && RequiredInteger(lib, data, key).value >= 0)
    && ("validations" in data ==> data["validations"].Object? || data["validations"].Array?)
  }

  /** code and message of an object, when both are there. */
  function CodeOf(lib: Library, data: Fields): Option<(int, string)> {
    var code, message := RequiredInteger(lib, data, "code"), RequiredString(data, "message");
    if code.Some? && message.Some? then Some((code.value, message.value)) else None
  }

  predicate CarriesPayment(data: Fields) {
    "authority" in data || "ref_id" in data
  }

  function Envelope(lib: Library, envelope: Fields): Option<Response> {
    if "data" !in envelope || "errors" !in envelope then None
    else
      var data, errors := envelope["data"], envelope["errors"];
      if data == J.Scalar(J.Null) || errors == J.Scalar(J.Null) then None
      else if errors.Object? then
        var code := CodeOf(lib, errors.fields);
        if data != J.Array([]) || code.None? || code.value.0 >= 0 || !ValidResponseFields(lib, errors.fields)
           || CarriesPayment(errors.fields) then None
        else Some(Response(code.value.0, code.value.1, map[]))
      else if errors != J.Array([]) || !data.Object? || !ValidResponseFields(lib, data.fields) then None
      else
        var code := CodeOf(lib, data.fields);
        if code.None? || code.value.0 == 0
           || (code.value.0 > 0 && code.value.0 != Payments.CODE_SUCCESS && code.value.0 != Payments.CODE_ALREADY_VERIFIED)
           || (code.value.0 < 0 && CarriesPayment(data.fields)) then None
        else Some(Response(code.value.0, code.value.1, data.fields))
  }

  /** A body of tokens, read to its end. */
  function DecodeResponse(lib: Library, ts: seq<J.Token>): Option<Response> {
    match J.Decode(ts, 0, lib.lower)
    case None => None
    case Some((v, rest)) => if rest != [] || !v.Object? then None else Envelope(lib, v.fields)
  }

  /** The body of an HTTP answer: outside 2xx only a rejection is believed, and a redirect never. */
  function Post(lib: Library, status: int, ts: seq<J.Token>): Option<Response> {
    var r := DecodeResponse(lib, ts);
    if r.None? || 300 <= status < 400 || ((status < 200 || status >= 300) && r.value.code >= 0) then None else r
  }

  function VerifyPayment(lib: Library, status: int, ts: seq<J.Token>): Processes.VerifyResult {
    match Post(lib, status, ts)
    case None => Processes.VerifyFailed(None)
    case Some(r) =>
      if r.code < 0 then Processes.VerifyAnswered(r.code, 0)
      else
        var refId := RequiredInteger(lib, r.data, "ref_id");
        if refId.None? || refId.value <= 0 then Processes.VerifyFailed(None)
        else Processes.VerifyAnswered(r.code, refId.value)
  }

  function RequestPayment(lib: Library, status: int, ts: seq<J.Token>, startPay: string): Processes.RequestResult {
    match Post(lib, status, ts)
    case None => Processes.RequestFailed(None)
    case Some(r) =>
      if r.code < 0 then Processes.RequestFailed(Some(r.code))
      else
        var authority := RequiredString(r.data, "authority");
        if r.code != Payments.CODE_SUCCESS || authority.None? || !Payments.ValidAuthority(authority.value)
        then Processes.RequestFailed(None)
        else Processes.RequestAnswered(r.code, authority.value, startPay + authority.value)
  }

  /**
   * A verification is answered without ambiguity: either a rejection without a payment reference, or a
   * confirmation with one, on a 2xx status.
   */
  lemma VerifyAnswersAreUnambiguous(lib: Library, status: int, ts: seq<J.Token>)
    ensures var r := VerifyPayment(lib, status, ts);
            r.VerifyAnswered? ==> (r.code < 0 && r.refId == 0) || (Processes.Confirms(r) && 200 <= status < 300)
  {
    if Post(lib, status, ts).Some? {
      AnswersHaveACode(lib, ts);
    }
  }

  lemma AnswersHaveACode(lib: Library, ts: seq<J.Token>)
    requires DecodeResponse(lib, ts).Some?
    ensures var r := DecodeResponse(lib, ts).value;
            && (r.code < 0 || r.code in {Payments.CODE_SUCCESS, Payments.CODE_ALREADY_VERIFIED})
            && (r.code < 0 ==> !CarriesPayment(r.data))
            && ValidResponseFields(lib, r.data)
  {
  }

  /** An issued session is usable: success code, an alphanumeric authority and somewhere to send the customer. */
  lemma IssuedSessionsAreUsable(lib: Library, status: int, ts: seq<J.Token>, startPay: string)
    requires startPay != ""
    ensures var r := RequestPayment(lib, status, ts, startPay);
            r.RequestAnswered? ==> (Processes.Issues(r) <==> |r.authority| <= 64)
  {
  }

  /**
   * Nothing can hide behind a second key: in every believed body the document is acceptable to the last
   * token, has exactly one field that reads "data" and one that reads "errors" ignoring case, and the
   * response is decided by what the document wrote there.
   */
  lemma BelievedBodiesHideNothing(lib: Library, ts: seq<J.Token>) returns (fields: J.Fields, data: J.Tree, errors: J.Tree)
    requires DecodeResponse(lib, ts).Some?
    requires forall key: string | key in J.RESERVED :: lib.lower(key) == key
    ensures ts == J.Print(J.Obj(fields)) && J.Acceptable(J.Obj(fields), 0, lib.lower)
    ensures J.HasField(fields, "data", data) && J.HasField(fields, "errors", errors)
    ensures forall key, value | J.HasField(fields, key, value) && lib.lower(key) == "data" :: key == "data" && value == data
    ensures forall key, value | J.HasField(fields, key, value) && lib.lower(key) == "errors" :: key == "errors" && value == errors
    ensures DecodeResponse(lib, ts) == Envelope(lib, map["data" := J.Meaning(data), "errors" := J.Meaning(errors)])
  {
    var t := J.DecodedStreamsArePrints(ts, 0, lib.lower);
    var rest: seq<J.Token> := J.Decode(ts, 0, lib.lower).value.1;
    assert rest == [];
    fields := t.fields;
    assert ts == J.Print(t) + [] == J.Print(t);
    var all := J.FieldsMeaning(fields, map[]);
    data := TheOnlyField(lib, fields, "data");
    errors := TheOnlyField(lib, fields, "errors");
    assert J.Meaning(t) == J.Object(all);
    EnvelopeReadsTwoFields(lib, all);
  }

  lemma EnvelopeReadsTwoFields(lib: Library, all: Fields)
    requires "data" in all && "errors" in all
    ensures Envelope(lib, all) == Envelope(lib, map["data" := all["data"], "errors" := all["errors"]])
  {
  }

  lemma TheOnlyField(lib: Library, fields: J.Fields, name: string) returns (value: J.Tree)
    requires J.KeysAcceptable(J.Keys(fields), {}, lib.lower)
    requires name in J.RESERVED && lib.lower(name) == name
    requires name in J.FieldsMeaning(fields, map[])
    ensures J.HasField(fields, name, value)
    ensures J.FieldsMeaning(fields, map[])[name] == J.Meaning(value)
    ensures forall key, other | J.HasField(fields, key, other) && lib.lower(key) == name :: key == name && other == value
  {
    value := WrittenField(fields, map[], name);
    J.NoFieldIsHidden(fields, map[], {}, name, value, lib.lower);
    forall key, other | J.HasField(fields, key, other) && lib.lower(key) == name ensures key == name && other == value {
      FieldsAreUnique(fields, {}, name, value, key, other, lib.lower);
    }
  }

  /** A key of the decoded object was written in the document. */
  lemma {:induction false} WrittenField(fields: J.Fields, before: Fields, name: string) returns (value: J.Tree)
    requires name in J.FieldsMeaning(fields, before) && name !in before
    ensures J.HasField(fields, name, value)
    decreases fields
  {
    value := fields.value;
    if fields.key != name {
      value := WrittenField(fields.rest, before[fields.key := J.Meaning(fields.value)], name);
    }
  }

  lemma {:induction false} HasFieldHasKey(fields: J.Fields, key: string, value: J.Tree)
    requires J.HasField(fields, key, value)
    ensures key in J.Keys(fields)
    decreases fields
  {
    if !(fields.key == key && fields.value == value) {
      HasFieldHasKey(fields.rest, key, value);
    }
  }

  /** Two fields whose keys read the same ignoring case are the same field. */
  lemma {:induction false} FieldsAreUnique(fields: J.Fields, seen: set<string>, k: string, v: J.Tree, l: string, w: J.Tree,
                                           lower: string -> string)
    requires J.KeysAcceptable(J.Keys(fields), seen, lower)
    requires J.HasField(fields, k, v) && J.HasField(fields, l, w) && lower(k) == lower(l)
    ensures k == l && v == w
    decreases fields
  {
    J.KeysUnfold(fields.key, J.Keys(fields.rest), seen, lower);
    var seen' := seen + {lower(fields.key)};
    if J.HasField(fields.rest, k, v) {
      KeyIsNotSeen(fields.rest, seen', k, v, lower);
    }
    if J.HasField(fields.rest, l, w) {
      KeyIsNotSeen(fields.rest, seen', l, w, lower);
    }
    if J.HasField(fields.rest, k, v) && J.HasField(fields.rest, l, w) {
      FieldsAreUnique(fields.rest, seen', k, v, l, w, lower);
    }
  }

  lemma KeyIsNotSeen(fields: J.Fields, seen: set<string>, k: string, v: J.Tree, lower: string -> string)
    requires J.KeysAcceptable(J.Keys(fields), seen, lower) && J.HasField(fields, k, v)
    ensures lower(k) !in seen
  {
    HasFieldHasKey(fields, k, v);
    var keys := J.Keys(fields);
    var i :| 0 <= i < |keys| && keys[i] == k;
    assert J.KeyAllowed(keys[i], seen, lower);
  }
}
