/**
 The bearer-token guard in front of every `/users` route. The token is the
 second space-separated word of the `Authorization` header; the first word
 is not looked at. Token verification (signature and expiry) is a library
 call, so it is a parameter here: `verify(token)` is the decoded payload, or
 `None` when the library reports an error.
 */
module Auth {
  import opened Wrappers
  import opened JsString
  import opened Api

  const NoTokenMessage := "Access denied. No token provided."
  const InvalidTokenMessage := "Invalid token."

  /** `header && header.split(' ')[1]`, followed by the guard's `!token`
      test: `None` stands for every falsy token (no header, an empty header,
      no second word, or an empty second word). */
  function ExtractToken(header: Option<string>): (token: Option<string>)
    ensures token.Some? ==> token.value != "" && ' ' !in token.value
    ensures header.None? || header == Some("") ==> token.None?
  {
    match header
    case None => None
    case Some(h) =>
      if h == "" then None
      else
        var words := Split(h, ' ');
        SplitPiecesSeparatorFree(h, ' ');
        if |words| < 2 || words[1] == "" then None else Some(words[1])
  }

  /** The guard either answers the request itself or lets it through with
      the decoded identity attached. */
  datatype GuardDecision = Reject(response: Response) | Proceed(user: Claims)

  /** `authenticateToken`: 401 without a token, 403 when verification
      fails, otherwise the identity the token carries. */
  function Authenticate(header: Option<string>, verify: string -> Option<Claims>): (d: GuardDecision)
    ensures d.Reject? ==> d.response.status in {401, 403}
    ensures d.Reject? ==>
              d.response.body == Message(if d.response.status == 401 then NoTokenMessage else InvalidTokenMessage)
    ensures d.Reject? && d.response.status == 401 <==> ExtractToken(header).None?
    ensures d.Proceed? ==> verify(ExtractToken(header).value) == Some(d.user)
    ensures d.Reject? && d.response.status == 403 <==>
              ExtractToken(header).Some? && verify(ExtractToken(header).value).None?
    ensures ExtractToken(header).Some? && verify(ExtractToken(header).value).Some? ==>
              d == Proceed(verify(ExtractToken(header).value).value)
  {
    match ExtractToken(header)
    case None => Reject(Json(401, Message(NoTokenMessage)))
    case Some(token) =>
      match verify(token)
      case None => Reject(Json(403, Message(InvalidTokenMessage)))
      case Some(user) => Proceed(user)
  }

  /** A protected route: the guard runs first and the handler (`next`) runs
      only when the guard lets the request through, with the identity it
      decoded. A rejected request issues no statement. */
  function Serve(header: Option<string>, verify: string -> Option<Claims>, handler: Claims -> Outcome): (o: Outcome)
    ensures Authenticate(header, verify).Reject? ==>
              o == Outcome(Authenticate(header, verify).response, None)
    ensures Authenticate(header, verify).Proceed? ==>
              o == handler(Authenticate(header, verify).user)
  {
    match Authenticate(header, verify)
    case Reject(response) => Outcome(response, None)
    case Proceed(user) => handler(user)
  }

  /** Whatever the first word is, a second word that is non-empty and runs up
      to the next space or the end of the header is the token; an empty
      second word means no token. */
  lemma {:induction false} TokenIsSecondWord(scheme: string, token: string, rest: string)
    requires ' ' !in scheme && ' ' !in token
    requires rest == [] || rest[0] == ' '
    ensures ExtractToken(Some(scheme + [' '] + token + rest)) ==
            if token == "" then None else Some(token)
  {
    var h := scheme + [' '] + token + rest;
    assert h == scheme + [' '] + (token + rest);
    SplitAround(scheme, token + rest, ' ');
    SplitWithoutSeparator(scheme, ' ');
    if rest == [] {
      assert token + rest == token;
      SplitWithoutSeparator(token, ' ');
    } else {
      assert token + rest == token + [' '] + rest[1..];
      SplitAround(token, rest[1..], ' ');
      SplitWithoutSeparator(token, ' ');
    }
  }

  /** Conversely, an extracted token is the whole second word of the header:
      the header is some space-free first word, one space, the token, and
      then nothing or a further space. */
  lemma {:induction false} ExtractedTokenIsSecondWord(h: string, token: string) returns (scheme: string, rest: string)
    requires ExtractToken(Some(h)) == Some(token)
    ensures h == scheme + [' '] + token + rest
    ensures ' ' !in scheme
    ensures rest == [] || rest[0] == ' '
  {
    var words := Split(h, ' ');
    JoinSplit(h, ' ');
    SplitPiecesSeparatorFree(h, ' ');
    scheme := words[0];
    assert words[1..][0] == token;
    if |words| == 2 {
      rest := [];
    } else {
      rest := [' '] + Join(words[2..], ' ');
      assert words[1..][1..] == words[2..];
    }
  }

  /** A header with no space carries no token: 401, and the handler never
      runs. */
  lemma NoSpaceIsUnauthenticated(h: string, verify: string -> Option<Claims>, handler: Claims -> Outcome)
    requires ' ' !in h
    ensures Serve(Some(h), verify, handler) == Outcome(Json(401, Message(NoTokenMessage)), None)
  {
    SplitWithoutSeparator(h, ' ');
  }

  /** The scheme word is not checked: `Basic x` yields the token `x`. */
  lemma SchemeIsNotChecked()
    ensures ExtractToken(Some("Basic x")) == Some("x")
  {
    TokenIsSecondWord("Basic", "x", "");
    assert "Basic" + [' '] + "x" + "" == "Basic x";
  }
}
