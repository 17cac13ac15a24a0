/** Which provider answers are believed, told by what stands in the document. */
module ResponseOutcomes {
  import opened Basics
  import J = JsonDecoder
  import P = Processes
  import opened ProviderResponse
  import opened SqlScanner

  // ----- what stands in a field

  predicate IsText(v: J.Value) {
    v.Scalar? && v.token.Str? && Trim(v.token.text) != ""
  }

  predicate IsNumber(lib: Library, v: J.Value, n: int) {
    v.Scalar? && v.token.Num? && lib.parseInt(v.token.digits) == Some(n)
  }

  predicate IsCount(lib: Library, v: J.Value) {
    v.Scalar? && v.token.Num? && lib.parseInt(v.token.digits).Some? && lib.parseInt(v.token.digits).value >= 0
  }

  /** A code and a message are there, and every other field the provider documents has its type if it is there. */
  predicate IsStatement(lib: Library, fields: Fields, code: int) {
    && "code" in fields && IsNumber(lib, fields["code"], code) && "message" in fields && IsText(fields["message"])
    && ("authority" in fields ==> IsText(fields["authority"])) && ("fee_type" in fields ==> IsText(fields["fee_type"]))
    && ("card_hash" in fields ==> IsText(fields["card_hash"])) && ("card_pan" in fields ==> IsText(fields["card_pan"]))
    && ("fee" in fields ==> IsCount(lib, fields["fee"])) && ("ref_id" in fields ==> IsCount(lib, fields["ref_id"]))
    && ("validations" in fields ==> fields["validations"].Object? || fields["validations"].Array?)
  }

  lemma StatementsExactly(lib: Library, fields: Fields, code: int)
    ensures ValidResponseFields(lib, fields) && CodeOf(lib, fields).Some? && CodeOf(lib, fields).value.0 == code <==>
              IsStatement(lib, fields, code)
  {
    var texts, counts := ["authority", "fee_type", "card_hash", "card_pan"], ["fee", "ref_id"];
    assert texts[0] in texts && texts[1] in texts && texts[2] in texts && texts[3] in texts;
    assert counts[0] in counts && counts[1] in counts;
  }

  // ----- the two kinds of body

  /** The body is one object, and this is what it says under data and errors. */
  predicate Says(lib: Library, ts: seq<J.Token>, data: J.Value, errors: J.Value) {
    match J.Decode(ts, 0, lib.lower)
    case None => false
    case Some((v, rest)) =>
      rest == [] && v.Object? && "data" in v.fields && v.fields["data"] == data && "errors" in v.fields
      && v.fields["errors"] == errors
  }

  /** A statement of success: data with code 100 or 101, and an empty list of errors. */
  ghost predicate IsSuccess(lib: Library, ts: seq<J.Token>, data: Fields, code: int) {
    Says(lib, ts, J.Object(data), J.Array([])) && IsStatement(lib, data, code) && (code == 100 || code == 101)
  }

  /**
   * A statement of failure: a negative code, without an authority or a reference, under errors beside empty
   * data or under data beside no errors.
   */
  ghost predicate IsFailure(lib: Library, ts: seq<J.Token>, code: int) {
    exists fields: Fields ::
      && (Says(lib, ts, J.Array([]), J.Object(fields)) || Says(lib, ts, J.Object(fields), J.Array([])))
      && IsStatement(lib, fields, code) && code < 0 && "authority" !in fields && "ref_id" !in fields
  }

  lemma SuccessesAreRead(lib: Library, ts: seq<J.Token>, data: Fields, code: int)
    requires IsSuccess(lib, ts, data, code)
    ensures DecodeResponse(lib, ts).Some?
    ensures DecodeResponse(lib, ts).value.code == code && DecodeResponse(lib, ts).value.data == data
  {
    StatementsExactly(lib, data, code);
  }

  lemma ReadSuccessesAreWritten(lib: Library, ts: seq<J.Token>)
    requires DecodeResponse(lib, ts).Some? && DecodeResponse(lib, ts).value.code >= 0
    ensures var r := DecodeResponse(lib, ts).value; IsSuccess(lib, ts, r.data, r.code)
  {
    var r := DecodeResponse(lib, ts).value;
    StatementsExactly(lib, r.data, r.code);
  }

  lemma FailuresAreRead(lib: Library, ts: seq<J.Token>, code: int)
    requires IsFailure(lib, ts, code)
    ensures DecodeResponse(lib, ts).Some? && DecodeResponse(lib, ts).value.code == code
  {
    var fields: Fields :|
      && (Says(lib, ts, J.Array([]), J.Object(fields)) || Says(lib, ts, J.Object(fields), J.Array([])))
      && IsStatement(lib, fields, code) && code < 0 && "authority" !in fields && "ref_id" !in fields;
    StatementsExactly(lib, fields, code);
  }

  lemma ReadFailuresAreWritten(lib: Library, ts: seq<J.Token>)
    requires DecodeResponse(lib, ts).Some? && DecodeResponse(lib, ts).value.code < 0
    ensures IsFailure(lib, ts, DecodeResponse(lib, ts).value.code)
  {
    var code := DecodeResponse(lib, ts).value.code;
    var v: J.Value := J.Decode(ts, 0, lib.lower).value.0;
    var data, errors := v.fields["data"], v.fields["errors"];
    if errors.Object? {
      StatementsExactly(lib, errors.fields, code);
      assert Says(lib, ts, J.Array([]), J.Object(errors.fields));
    } else {
      StatementsExactly(lib, data.fields, code);
      assert Says(lib, ts, J.Object(data.fields), J.Array([]));
    }
  }

  // ----- what the two calls return

  /**
   * A verification is confirmed exactly when the status is 2xx and the body states success with a positive
   * number as its reference, and that number is the reference.
   */
  lemma ConfirmedExactly(lib: Library, status: int, ts: seq<J.Token>, code: int, refId: int)
    requires code >= 0
    ensures VerifyPayment(lib, status, ts) == P.VerifyAnswered(code, refId) <==>
              && 200 <= status < 300 && refId > 0
              && exists data: Fields ::
                   IsSuccess(lib, ts, data, code) && "ref_id" in data && IsNumber(lib, data["ref_id"], refId)
  {
    if VerifyPayment(lib, status, ts) == P.VerifyAnswered(code, refId) {
      ReadSuccessesAreWritten(lib, ts);
      var data: Fields := DecodeResponse(lib, ts).value.data;
      assert IsSuccess(lib, ts, data, code);
    }
    if 200 <= status < 300 && refId > 0 {
      forall data: Fields | IsSuccess(lib, ts, data, code) && "ref_id" in data && IsNumber(lib, data["ref_id"], refId)
        ensures VerifyPayment(lib, status, ts) == P.VerifyAnswered(code, refId)
      {
        SuccessesAreRead(lib, ts, data, code);
      }
    }
  }

  /** It is rejected exactly when the body states failure, on any status but a redirect; all else is no answer. */
  lemma RejectedExactly(lib: Library, status: int, ts: seq<J.Token>, code: int)
    requires code < 0
    ensures VerifyPayment(lib, status, ts) == P.VerifyAnswered(code, 0) <==>
              IsFailure(lib, ts, code) && !(300 <= status < 400)
    ensures VerifyPayment(lib, status, ts).VerifyFailed? ==> VerifyPayment(lib, status, ts) == P.VerifyFailed(None)
  {
    if VerifyPayment(lib, status, ts) == P.VerifyAnswered(code, 0) {
      ReadFailuresAreWritten(lib, ts);
    }
    if IsFailure(lib, ts, code) {
      FailuresAreRead(lib, ts, code);
    }
  }

  /** At most 255 ASCII letters and digits, and at least one. */
  predicate IsAuthority(s: string) {
    1 <= |s| <= 255 && forall i | 0 <= i < |s| :: 'a' <= s[i] <= 'z' || 'A' <= s[i] <= 'Z' || '0' <= s[i] <= '9'
  }

  /**
   * A session is issued exactly when the status is 2xx and the body states success with code 100 and an
   * authority; the customer is sent to that authority's page.
   */
  lemma IssuedExactly(lib: Library, status: int, ts: seq<J.Token>, startPay: string, code: int, authority: string,
                      redirect: string)
    ensures RequestPayment(lib, status, ts, startPay) == P.RequestAnswered(code, authority, redirect) <==>
              && 200 <= status < 300 && code == 100 && IsAuthority(authority) && redirect == startPay + authority
              && exists data: Fields ::
                   && IsSuccess(lib, ts, data, code) && "authority" in data
                   && data["authority"] == J.Scalar(J.Str(authority))
  {
    if RequestPayment(lib, status, ts, startPay) == P.RequestAnswered(code, authority, redirect) {
      ReadSuccessesAreWritten(lib, ts);
      var data: Fields := DecodeResponse(lib, ts).value.data;
      assert IsSuccess(lib, ts, data, code);
    }
    if 200 <= status < 300 && code == 100 && IsAuthority(authority) && redirect == startPay + authority {
      forall data: Fields | && IsSuccess(lib, ts, data, code) && "authority" in data
                            && data["authority"] == J.Scalar(J.Str(authority))
        ensures RequestPayment(lib, status, ts, startPay) == P.RequestAnswered(code, authority, redirect)
      {
        SuccessesAreRead(lib, ts, data, code);
      }
    }
  }

  /** A refused session carries the provider's code exactly when the body states failure. */
  lemma RefusedExactly(lib: Library, status: int, ts: seq<J.Token>, startPay: string, code: int)
    ensures RequestPayment(lib, status, ts, startPay) == P.RequestFailed(Some(code)) <==>
              IsFailure(lib, ts, code) && !(300 <= status < 400)
  {
    if RequestPayment(lib, status, ts, startPay) == P.RequestFailed(Some(code)) {
      ReadFailuresAreWritten(lib, ts);
    }
    if IsFailure(lib, ts, code) {
      FailuresAreRead(lib, ts, code);
    }
  }

  // ----- depth and keys

  /** Lists in lists. */
  function Tower(n: nat): J.Tree {
    if n == 0 then J.Leaf(J.Null) else J.Arr(J.MoreItems(Tower(n - 1), J.NoItems))
  }

  lemma {:induction false} TowersAreAcceptable(n: nat, depth: nat, lower: string -> string)
    ensures J.Acceptable(Tower(n), depth, lower) <==> n + depth <= 64
    ensures J.WellFormed(Tower(n))
  {
    if n > 0 {
      TowersAreAcceptable(n - 1, depth + 1, lower);
      assert J.ItemsAcceptable(J.NoItems, depth, lower);
      assert J.ItemsAcceptable(J.MoreItems(Tower(n - 1), J.NoItems), depth, lower) == J.Acceptable(Tower(n - 1), depth + 1, lower);
    }
  }

  /** Lists may be nested sixty-four deep in a body, and no deeper. */
  lemma SixtyFourDeep(n: nat, lower: string -> string)
    ensures J.Decode(J.Print(Tower(n)), 0, lower).Some? <==> n <= 64
  {
    TowersAreAcceptable(n, 0, lower);
    assert J.Print(Tower(n)) + [] == J.Print(Tower(n));
    J.DecodeUndoesPrint(Tower(n), [], 0, lower);
  }

  /** An object with one field is taken exactly when a name the provider documents is in lower case. */
  lemma DocumentedNamesAreInLowerCase(key: string, token: J.Token, lower: string -> string)
    requires J.IsScalar(token)
    ensures J.Decode(J.Print(J.Obj(J.MoreFields(key, J.Leaf(token), J.NoFields))), 0, lower).Some? <==>
              lower(key) == key
              || lower(key) !in {"data", "errors", "code", "message", "authority", "ref_id", "fee", "fee_type", "card_hash",
                                 "card_pan", "validations"}
  {
    var fields := J.MoreFields(key, J.Leaf(token), J.NoFields);
    var t := J.Obj(fields);
    assert J.Print(t) + [] == J.Print(t);
    J.DecodeUndoesPrint(t, [], 0, lower);
    assert J.Keys(fields) == [key] + [];
    J.KeysUnfold(key, [], {}, lower);
    assert J.Acceptable(J.Leaf(token), 1, lower) && J.FieldsAcceptable(J.NoFields, 0, lower);
    assert J.FieldsAcceptable(fields, 0, lower);
  }
}
