/** The bearer-token gate of Backend/middleware/auth.js. The token verifier
    (signature and expiry checking against the process secret) is a foreign
    library, so it is a parameter: any function from token text to either an
    identity or a verification error. */
module Auth {

  import opened Common
  import opened ExpenseModel

  // ------------------------------------------------------- splitting text

  /** JavaScript's `s.split(c)` for a one-character separator: the pieces
      between separators, empty pieces included, never fewer than one. */
  function SplitOn(s: string, c: char): (parts: seq<string>)
    ensures |parts| >= 1
    ensures forall k :: 0 <= k < |parts| ==> c !in parts[k]
    decreases |s|
  {
    if |s| == 0 then [""]
    else if s[0] == c then [""] + SplitOn(s[1..], c)
    else
      var rest := SplitOn(s[1..], c);
      [[s[0]] + rest[0]] + rest[1..]
  }

  /** JavaScript's `parts.join(c)`: the inverse of `SplitOn`. */
  function Join(parts: seq<string>, c: char): string
    requires |parts| >= 1
  {
    if |parts| == 1 then parts[0] else parts[0] + [c] + Join(parts[1..], c)
  }

  /** Joining the pieces back gives the original text. */
  lemma {:induction false} JoinSplit(s: string, c: char)
    ensures Join(SplitOn(s, c), c) == s
  {
    if |s| > 0 {
      JoinSplit(s[1..], c);
      var rest := SplitOn(s[1..], c);
      if s[0] != c {
        var parts := [[s[0]] + rest[0]] + rest[1..];
        if |rest| > 1 {
          assert parts[1..] == rest[1..];
          assert Join(rest, c) == rest[0] + [c] + Join(rest[1..], c);
        }
        assert s == [s[0]] + s[1..];
      } else {
        assert s == [c] + s[1..];
      }
    }
  }

  /** Text without the separator is a single piece. */
  lemma {:induction false} SplitWithoutSeparator(s: string, c: char)
    requires c !in s
    ensures SplitOn(s, c) == [s]
  {
    if |s| > 0 {
      assert c !in s[1..] by { assert forall x :: x in s[1..] ==> x in s; }
      SplitWithoutSeparator(s[1..], c);
      assert [s[0]] + s[1..] == s;
    }
  }

  /** A leading piece without the separator splits off first. */
  lemma {:induction false} SplitAfterFirstPiece(a: string, c: char, b: string)
    requires c !in a
    ensures SplitOn(a + [c] + b, c) == [a] + SplitOn(b, c)
  {
    if |a| == 0 {
      assert a + [c] + b == [c] + b;
      assert ([c] + b)[1..] == b;
    } else {
      var s := a + [c] + b;
      assert s[0] == a[0];
      assert s[1..] == a[1..] + [c] + b;
      assert c !in a[1..] by { assert forall x :: x in a[1..] ==> x in a; }
      SplitAfterFirstPiece(a[1..], c, b);
      assert [a[0]] + a[1..] == a;
    }
  }

  /** Splitting what `Join` built gives the pieces back. */
  lemma {:induction false} SplitJoin(parts: seq<string>, c: char)
    requires |parts| >= 1
    requires forall k :: 0 <= k < |parts| ==> c !in parts[k]
    ensures SplitOn(Join(parts, c), c) == parts
  {
    if |parts| == 1 {
      SplitWithoutSeparator(parts[0], c);
    } else {
      SplitJoin(parts[1..], c);
      SplitAfterFirstPiece(parts[0], c, Join(parts[1..], c));
      assert [parts[0]] + parts[1..] == parts;
    }
  }

  // ------------------------------------------------------- the gate

  /** Why the verifier rejected a token: malformed, bad signature, expired. */
  datatype VerifyError = Malformed | BadSignature | Expired

  /** What the gate decides for one request: 401, 403, or carry on with the
      identity bound to the request. */
  datatype GateOutcome = MissingToken | VerificationFailed | Proceed(userId: UserId)

  /** The token is the second space-separated piece of the `Authorization`
      header; the scheme word in front of it is not looked at. An absent
      header, a header with no second piece or an empty second piece yields
      no token. */
  function ExtractToken(authorization: Option<string>): (t: Option<string>)
    ensures t.Some? ==> t.value != "" && ' ' !in t.value
    ensures t.Some? ==> authorization.Some?
  {
    match authorization
    case None => None
    case Some(h) =>
      var parts := SplitOn(h, ' ');
      if |parts| < 2 || parts[1] == "" then None else Some(parts[1])
  }

  /** The middleware: no token is a 401 without consulting the verifier; any
      verification error is a 403; otherwise the decoded identity is bound
      and the request proceeds. */
  function Gate(authorization: Option<string>, verify: string -> Result<UserId, VerifyError>): (o: GateOutcome)
    ensures o.MissingToken? <==> ExtractToken(authorization).None?
    ensures o.VerificationFailed? <==>
      ExtractToken(authorization).Some? && verify(ExtractToken(authorization).value).Err?
    ensures o.Proceed? ==>
      && ExtractToken(authorization).Some?
      && verify(ExtractToken(authorization).value) == Ok(o.userId)
  {
    match ExtractToken(authorization)
    case None => MissingToken
    case Some(token) =>
      match verify(token)
      case Err(_) => VerificationFailed
      case Ok(id) => Proceed(id)
  }

  /** Without a token the verifier is never consulted: the outcome is 401
      whatever the verifier would have said. */
  lemma NoTokenIgnoresVerifier(authorization: Option<string>,
                               v1: string -> Result<UserId, VerifyError>,
                               v2: string -> Result<UserId, VerifyError>)
    requires ExtractToken(authorization).None?
    ensures Gate(authorization, v1) == Gate(authorization, v2) == MissingToken
  {
  }

  /** A forged token and an expired one are rejected identically: the
      caller cannot tell which verification error occurred. */
  lemma VerificationErrorsLookAlike(authorization: Option<string>,
                                    v1: string -> Result<UserId, VerifyError>,
                                    v2: string -> Result<UserId, VerifyError>)
    requires ExtractToken(authorization).Some?
    requires v1(ExtractToken(authorization).value).Err?
    requires v2(ExtractToken(authorization).value).Err?
    ensures Gate(authorization, v1) == Gate(authorization, v2) == VerificationFailed
  {
  }

  /** A well-formed `<scheme> <token>` header yields exactly that token, for
      any scheme word, `Bearer` or not. */
  lemma {:induction false} SchemeTokenHeaderYieldsToken(scheme: string, token: string)
    requires ' ' !in scheme && ' ' !in token && token != ""
    ensures ExtractToken(Some(scheme + " " + token)) == Some(token)
  {
    SplitAfterFirstPiece(scheme, ' ', token);
    SplitWithoutSeparator(token, ' ');
  }

  /** Pieces after the token are ignored: `<scheme> <token> <rest>` yields
      the token, whatever follows it. */
  lemma {:induction false} SchemeTokenRestYieldsToken(scheme: string, token: string, rest: string)
    requires ' ' !in scheme && ' ' !in token && token != ""
    ensures ExtractToken(Some(scheme + " " + token + " " + rest)) == Some(token)
  {
    assert scheme + " " + token + " " + rest == scheme + [' '] + (token + [' '] + rest);
    SplitAfterFirstPiece(scheme, ' ', token + [' '] + rest);
    SplitAfterFirstPiece(token, ' ', rest);
  }

  /** Conversely, a token comes from a header of one of those two shapes: a
      space-free scheme word, a space, the token, and then either nothing or
      a space and the remaining pieces. */
  lemma {:induction false} TokenIsSecondPiece(h: string, t: string)
    requires ExtractToken(Some(h)) == Some(t)
    ensures var parts := SplitOn(h, ' ');
      && ' ' !in parts[0]
      && (|parts| == 2 ==> h == parts[0] + " " + t)
      && (|parts| > 2 ==> h == parts[0] + " " + t + " " + Join(parts[2..], ' '))
  {
    var parts := SplitOn(h, ' ');
    JoinSplit(h, ' ');
    assert parts[1..][0] == t;
    if |parts| > 2 {
      assert parts[1..][1..] == parts[2..];
    }
  }

  /** A header without a space carries no token (a bare token, or the empty
      header, is a 401). */
  lemma {:induction false} HeaderWithoutSpaceHasNoToken(h: string)
    requires ' ' !in h
    ensures ExtractToken(Some(h)) == None
  {
    SplitWithoutSeparator(h, ' ');
  }

  /** Two spaces after the scheme leave an empty second piece: also a 401. */
  lemma {:induction false} DoubleSpaceHasNoToken(scheme: string, rest: string)
    requires ' ' !in scheme
    ensures ExtractToken(Some(scheme + "  " + rest)) == None
  {
    assert scheme + "  " + rest == scheme + [' '] + ([' '] + rest);
    SplitAfterFirstPiece(scheme, ' ', [' '] + rest);
    SplitAfterFirstPiece("", ' ', rest);
    assert "" + [' '] + rest == [' '] + rest;
  }
}
