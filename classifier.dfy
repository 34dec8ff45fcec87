/** The error classifier: maps a failure of `Create` to what the retry loop
    must do with it, by matching on the error's text. */
module Classifier {
  import opened Text
  import opened Errors

  datatype Verdict =
    | AlreadySatisfied   // the assignment already exists: as good as a success
    | RetryableNotFound  // the principal is not visible yet: try again later
    | Fatal              // permission denied: retrying cannot help
    | FatalUnclassified  // anything else: fail fast

  const ExistsCode: string := "RoleAssignmentExists"
  const NotFoundCode: string := "PrincipalNotFound"

  /** The longest prefix of `s` that holds no line break. */
  function TakeLine(s: string): (r: string)
    ensures r <= s && '\n' !in r
    ensures |r| < |s| ==> s[|r|] == '\n'
  {
    if s == [] || s[0] == '\n' then [] else [s[0]] + TakeLine(s[1..])
  }

  /** The code that follows the first "ERROR CODE: " token of an error text,
      up to the end of its line; none when the text has no such token. */
  function ExtractCode(text: string): (r: Option<string>)
    ensures r.None? <==> !Contains(text, CodeMarker)
    ensures r.Some? ==> '\n' !in r.value && Contains(text, CodeMarker + r.value)
    ensures r.Some? ==>
      var i := IndexOf(text, CodeMarker).value;
      OccursAt(text, CodeMarker + r.value, i)
      && (i + |CodeMarker| + |r.value| == |text| || text[i + |CodeMarker| + |r.value|] == '\n')
  {
    match IndexOf(text, CodeMarker)
    case None => None
    case Some(i) =>
      var code := TakeLine(text[i + |CodeMarker|..]);
      assert text[i..i + |CodeMarker + code|] == CodeMarker + code;
      assert OccursAt(text, CodeMarker + code, i);
      Some(code)
  }

  /** An error text classified: the two known codes first, then a
      permission failure ("403" or "Forbidden"), else unknown. */
  function ClassifyText(text: string): Verdict
  {
    var code := ExtractCode(text);
    if code == Some(ExistsCode) then AlreadySatisfied
    else if code == Some(NotFoundCode) then RetryableNotFound
    else if Contains(text, "403") || Contains(text, "Forbidden") then Fatal
    else FatalUnclassified
  }

  /** A failure of `Create` is classified from its text alone. */
  function Classify(e: CreateError): Verdict
  {
    ClassifyText(ErrorText(e))
  }

  lemma {:induction false} TakeLineOfLine(code: string, rest: string)
    requires '\n' !in code
    ensures TakeLine(code + "\n" + rest) == code
    decreases |code|
  {
    if code == [] {
      assert (code + "\n" + rest)[0] == '\n';
    } else {
      assert (code + "\n" + rest)[1..] == code[1..] + "\n" + rest;
      TakeLineOfLine(code[1..], rest);
      assert [code[0]] + code[1..] == code;
    }
  }

  /** No position of the response header starts the "ER" that opens the code token. */
  lemma HeaderHasNoMarkerStart()
    ensures forall j :: 0 <= j < |ResponseHeader| - 1 ==> ResponseHeader[j] != 'E' || ResponseHeader[j + 1] != 'R'
    ensures ResponseHeader[|ResponseHeader| - 1] != 'E'
  {
  }

  /** After the response header, the first code token is the one the text
      continues with. */
  lemma FirstMarkerAfterHeader(rest: string)
    requires CodeMarker <= rest
    ensures IndexOf(ResponseHeader + rest, CodeMarker) == Some(|ResponseHeader|)
  {
    HeaderHasNoMarkerStart();
    FirstOccurrenceAfter(ResponseHeader, CodeMarker, rest);
  }

  /** Round trip: the code of a response error is read back from its text. */
  lemma CodeRoundTrip(code: string, message: string)
    requires '\n' !in code
    ensures ExtractCode(ErrorText(ResponseError(code, message))) == Some(code)
  {
    var text := ErrorText(ResponseError(code, message));
    assert text == ResponseHeader + (CodeMarker + code + "\n" + message);
    FirstMarkerAfterHeader(CodeMarker + code + "\n" + message);
    assert text[|ResponseHeader| + |CodeMarker|..] == code + "\n" + message;
    TakeLineOfLine(code, message);
  }

  /** A response error is classified by its code: exactly the two known codes
      mean "already satisfied" and "retry". */
  lemma ClassifyResponseError(code: string, message: string)
    requires '\n' !in code
    ensures Classify(ResponseError(code, message)) == AlreadySatisfied <==> code == ExistsCode
    ensures Classify(ResponseError(code, message)) == RetryableNotFound <==> code == NotFoundCode
  {
    CodeRoundTrip(code, message);
    ClassifyByCode(ErrorText(ResponseError(code, message)), code);
  }

  /** An error whose text carries a code is classified by that code alone. */
  lemma ClassifyByCode(text: string, code: string)
    requires ExtractCode(text) == Some(code)
    ensures ClassifyText(text) == AlreadySatisfied <==> code == ExistsCode
    ensures ClassifyText(text) == RetryableNotFound <==> code == NotFoundCode
  {
  }

  /** An error that holds no code token is never a success nor a retry: it
      is fatal exactly when it mentions 403 or Forbidden. */
  lemma ClassifyPlainError(text: string)
    requires !Contains(text, CodeMarker)
    ensures Classify(PlainError(text)) == (if Contains(text, "403") || Contains(text, "Forbidden") then Fatal else FatalUnclassified)
  {
  }

  /** The permission failure of the tests, "403 Forbidden: insufficient
      permissions", is classified fatal.
      The text is passed in pieces, fixed by the precondition, so that the
      verifier reasons about each piece rather than the whole literal. */
  lemma ForbiddenIsFatal(status: string, detail: string)
    requires status == "403 Forbidden: " && detail == "insufficient permissions"
    ensures Classify(PlainError(status + detail)) == Fatal
  {
    assert 'E' !in status && 'E' !in detail;
    NotContainsWithoutHead(status + detail, CodeMarker);
    ContainsStart(status, "403", detail);
    ClassifyPlainError(status + detail);
  }

  /** The unrecognised failure of the tests, "some other Azure error", is
      classified unclassified.
      The text is passed in pieces, fixed by the precondition, so that the
      verifier reasons about each piece rather than the whole literal. */
  lemma GenericIsUnclassified(first: string, rest: string)
    requires first == "some other " && rest == "Azure error"
    ensures Classify(PlainError(first + rest)) == FatalUnclassified
  {
    var text := first + rest;
    assert 'E' !in first && '4' !in first && 'F' !in first;
    assert 'E' !in rest && '4' !in rest && 'F' !in rest;
    NotContainsWithoutHead(text, "403");
    NotContainsWithoutHead(text, "Forbidden");
    NotContainsWithoutHead(text, CodeMarker);
    ClassifyPlainError(text);
  }
}
