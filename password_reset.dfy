/** The password-reset routes: a request issues (or reuses) the user's reset token
    and mails a link that carries the user id and the token; validating the link
    only reads; consuming it sets the new password, marks the user verified and
    deletes the token. */
module Reset {
  import opened Common
  import opened Users

  newtype byte = x: int | 0 <= x < 256

  /** A stored reset token: its random text and when it was issued. Tokens are
      keyed by the id of the user they belong to; the request route creates one
      only when the user has none, so there is at most one per user. */
  datatype ResetToken = ResetToken(token: string, createdAt: int)

  // ---------------------------------------------------------------------------
  // Hexadecimal token text
  // ---------------------------------------------------------------------------

  predicate IsHexChar(ch: char)
  {
    '0' <= ch <= '9' || 'a' <= ch <= 'f'
  }

  predicate AllHex(s: string)
  {
    forall i :: 0 <= i < |s| ==> IsHexChar(s[i])
  }

  /** The text of a freshly minted token: 32 random bytes in hex, 64 characters. */
  predicate IsHexToken(s: string)
  {
    |s| == 64 && AllHex(s)
  }

  function HexChar(d: nat): (ch: char)
    requires d < 16
    ensures IsHexChar(ch)
  {
    if d < 10 then (d + '0' as int) as char else (d - 10 + 'a' as int) as char
  }

  function HexValue(ch: char): (d: nat)
    requires IsHexChar(ch)
    ensures d < 16
  {
    if ch <= '9' then ch as int - '0' as int else ch as int - 'a' as int + 10
  }

  /** `buffer.toString('hex')`: two lower-case digits per byte, high nibble first. */
  function Hex(bs: seq<byte>): (s: string)
    ensures |s| == 2 * |bs| && AllHex(s)
  {
    if |bs| == 0 then "" else [HexChar(bs[0] as nat / 16), HexChar(bs[0] as nat % 16)] + Hex(bs[1..])
  }

  function Unhex(s: string): seq<byte>
    requires |s| % 2 == 0 && AllHex(s)
  {
    if |s| == 0 then [] else [(HexValue(s[0]) * 16 + HexValue(s[1])) as byte] + Unhex(s[2..])
  }

  /** The hex text determines the bytes: decoding it gives them back. */
  lemma {:induction false} HexRoundTrip(bs: seq<byte>)
    ensures Unhex(Hex(bs)) == bs
  {
    if |bs| > 0 {
      var s := Hex(bs);
      assert s[2..] == Hex(bs[1..]);
      HexRoundTrip(bs[1..]);
    }
  }

  /** Thirty-two random bytes make a 64-character hex token. */
  lemma MintedIsHexToken(bs: seq<byte>)
    requires |bs| == 32
    ensures IsHexToken(Hex(bs))
  {
  }

  // ---------------------------------------------------------------------------
  // The reset link
  // ---------------------------------------------------------------------------

  const LinkPath := "/password-reset/"

  /** `${BASE_URL}/password-reset/${user._id}/${token.token}/`. */
  function ResetLink(base: string, id: Id, token: string): string
  {
    base + LinkPath + DecimalText(id) + "/" + token + "/"
  }

  /** The text before the first '/' and the text after it. */
  function SplitAtSlash(s: string): (r: Option<(string, string)>)
    ensures r.None? <==> '/' !in s
    ensures r.Some? ==> s == r.value.0 + "/" + r.value.1 && '/' !in r.value.0
  {
    if |s| == 0 then None
    else if s[0] == '/' then Some(("", s[1..]))
    else
      match SplitAtSlash(s[1..])
      case None => None
      case Some(parts) => Some(([s[0]] + parts.0, parts.1))
  }

  lemma {:induction false} SplitAtFirstSlash(a: string, b: string)
    requires '/' !in a
    ensures SplitAtSlash(a + "/" + b) == Some((a, b))
  {
    if |a| > 0 {
      var s := a + "/" + b;
      assert s[0] == a[0] && a[0] != '/';
      assert s[1..] == a[1..] + "/" + b;
      assert '/' !in a[1..] by {
        assert forall i :: 0 <= i < |a[1..]| ==> a[1..][i] == a[i + 1];
      }
      SplitAtFirstSlash(a[1..], b);
      assert [a[0]] + a[1..] == a;
    }
  }

  /** What a route parameter such as `:id` matches: a non-empty run of characters
      other than '/'. */
  predicate IsSegment(s: string)
  {
    |s| > 0 && '/' !in s
  }

  /** The router's view of a link below `base`: the `:id` and `:token` path
      segments, when the link has that shape. */
  function ParseLink(base: string, link: string): (r: Option<(string, string)>)
    ensures r.Some? ==> link == base + LinkPath + r.value.0 + "/" + r.value.1 + "/"
    ensures r.Some? ==> IsSegment(r.value.0) && IsSegment(r.value.1)
  {
    var pre := base + LinkPath;
    if |link| < |pre| || link[..|pre|] != pre then None
    else
      match SplitAtSlash(link[|pre|..])
      case None => None
      case Some(parts) =>
        var tail := parts.1;
        if |tail| > 0 && tail[|tail| - 1] == '/' then
          var token := tail[..|tail| - 1];
          if IsSegment(parts.0) && IsSegment(token) then
            LinkParts(link, pre, parts.0, tail, token);
            Some((parts.0, token))
          else None
        else None
  }

  /** Reassembling a link from its prefix, id segment and token segment. */
  lemma LinkParts(link: string, pre: string, id: string, tail: string, token: string)
    requires |pre| <= |link| && link[..|pre|] == pre
    requires link[|pre|..] == id + "/" + tail
    requires |tail| > 0 && tail[|tail| - 1] == '/' && token == tail[..|tail| - 1]
    ensures link == pre + id + "/" + token + "/"
  {
    assert tail == token + "/";
    assert link == link[..|pre|] + link[|pre|..];
  }

  /** An `:id` path segment as a user id; anything but digits fails the cast. */
  function ParseId(s: string): (r: Option<Id>)
    ensures r.Some? ==> |s| > 0 && AllDigits(s)
  {
    if |s| > 0 && AllDigits(s) then Some(DecimalValue(s)) else None
  }

  /** The router reads back from a reset link exactly the id and token put in it,
      and matches no route when the token is not a single path segment. */
  lemma LinkRoundTrip(base: string, id: Id, token: string)
    ensures var parts := ParseLink(base, ResetLink(base, id, token));
            && (IsSegment(token) ==> parts == Some((DecimalText(id), token)) && ParseId(parts.value.0) == Some(id))
            && (!IsSegment(token) ==> parts == None)
  {
    var pre := base + LinkPath;
    var digits := DecimalText(id);
    var link := ResetLink(base, id, token);
    assert link == pre + (digits + "/" + (token + "/"));
    assert link[..|pre|] == pre;
    assert link[|pre|..] == digits + "/" + (token + "/");
    assert '/' !in digits by {
      assert forall i :: 0 <= i < |digits| ==> digits[i] != '/';
    }
    SplitAtFirstSlash(digits, token + "/");
    assert (token + "/")[..|token|] == token;
    DecimalRoundTrip(id);
  }

  // ---------------------------------------------------------------------------
  // POST /api/password-reset
  // ---------------------------------------------------------------------------

  /** The mail the request hands to the mailer. */
  datatype Mail = Mail(to: string, subject: string, link: string)

  const NoEmail := Rejection(400, "Please enter email!")
  const UnknownEmail := Rejection(409, "User with given email does not exist!")
  const Subject := "Resetting your Ade Farm Snails Password"
  const LinkSent := "Password reset link sent to your email account! Check your span if not in your inbox"

  datatype RequestOutcome = RequestOutcome(response: Response<string>, tokens: map<Id, ResetToken>, mail: Option<Mail>)

  /** The reset token the request leaves for user `uid`: the one the user already
      has, else a new one made from the random bytes `random` at time `now`. */
  function TokenFor(tokens: map<Id, ResetToken>, uid: Id, random: seq<byte>, now: int): (t: ResetToken)
    ensures uid in tokens ==> t == tokens[uid]
    ensures uid !in tokens ==> t.token == Hex(random) && t.createdAt == now
  {
    if uid in tokens then tokens[uid] else ResetToken(Hex(random), now)
  }

  /** A reset request for `email`; `random` are the 32 random bytes a new token is
      made from, `now` the clock and `base` the configured site address. */
  function Request(users: map<Id, User>, tokens: map<Id, ResetToken>, base: string, email: Option<string>,
                   random: seq<byte>, now: int): (out: RequestOutcome)
    requires UniqueEmails(users) && |random| == 32
    ensures !Truthy(email) ==> out == RequestOutcome(Reject(NoEmail), tokens, None)
    ensures Truthy(email) && !EmailTaken(users, email) ==> out == RequestOutcome(Reject(UnknownEmail), tokens, None)
    ensures out.response.Reply? <==> Truthy(email) && EmailTaken(users, email)
    ensures out.response.Reply? ==>
              var uid := FindByEmail(users, email.value).value;
              && out.response == Reply(200, LinkSent)
              && out.tokens.Keys == tokens.Keys + {uid}
              && (uid in tokens ==> out.tokens == tokens)
              && (uid !in tokens ==> out.tokens == tokens[uid := ResetToken(Hex(random), now)]
                                     && IsHexToken(out.tokens[uid].token))
              && out.mail == Some(Mail(users[uid].email, Subject, ResetLink(base, uid, out.tokens[uid].token)))
  {
    if !Truthy(email) then RequestOutcome(Reject(NoEmail), tokens, None)
    else
      match FindByEmail(users, email.value)
      case None => RequestOutcome(Reject(UnknownEmail), tokens, None)
      case Some(uid) =>
        var t := TokenFor(tokens, uid, random, now);
        MintedIsHexToken(random);
        RequestOutcome(Reply(200, LinkSent), tokens[uid := t], Some(Mail(users[uid].email, Subject, ResetLink(base, uid, t.token))))
  }

  /** Asking twice issues one token: the second request, whatever its random bytes
      and time, leaves the tokens as the first did and mails the same link. */
  lemma RequestTwice(users: map<Id, User>, tokens: map<Id, ResetToken>, base: string, email: Option<string>,
                     random: seq<byte>, now: int, random2: seq<byte>, now2: int)
    requires UniqueEmails(users) && |random| == 32 && |random2| == 32
    ensures var first := Request(users, tokens, base, email, random, now);
            var second := Request(users, first.tokens, base, email, random2, now2);
            second == first
  {
    var first := Request(users, tokens, base, email, random, now);
    if first.response.Reply? {
      var uid := FindByEmail(users, email.value).value;
      assert first.tokens[uid := first.tokens[uid]] == first.tokens;
    }
  }

  // ---------------------------------------------------------------------------
  // GET /api/password-reset/:id/:token
  // ---------------------------------------------------------------------------

  const InvalidLink := Rejection(400, "Invalid link")
  /** The handler's catch-all, reached when the `:id` segment is not an id. */
  const CastFailed := Rejection(400, "An error occured!")
  const ValidLink := "Valid Link"

  /** The user's stored token has exactly this text. */
  predicate TokenMatches(tokens: map<Id, ResetToken>, id: Id, token: string)
  {
    id in tokens && tokens[id].token == token
  }

  /** Checking a link; nothing is stored or removed. */
  function Validate(users: map<Id, User>, tokens: map<Id, ResetToken>, idText: string, token: string): (r: Response<string>)
    ensures ParseId(idText).None? ==> r == Reject(CastFailed)
    ensures r.Reply? <==> ParseId(idText).Some? && ParseId(idText).value in users
                          && TokenMatches(tokens, ParseId(idText).value, token)
    ensures r.Reply? ==> r == Reply(200, ValidLink)
    ensures ParseId(idText).Some? && !r.Reply? ==> r == Reject(InvalidLink)
  {
    match ParseId(idText)
    case None => Reject(CastFailed)
    case Some(id) =>
      if id !in users then Reject(InvalidLink)
      else if !TokenMatches(tokens, id, token) then Reject(InvalidLink)
      else Reply(200, ValidLink)
  }

  /** The link a successful request mails is valid, when every stored token is one
      the request route minted. */
  lemma IssuedLinkIsValid(users: map<Id, User>, tokens: map<Id, ResetToken>, base: string, email: Option<string>,
                          random: seq<byte>, now: int)
    requires UniqueEmails(users) && |random| == 32
    requires forall k :: k in tokens ==> IsHexToken(tokens[k].token)
    requires Request(users, tokens, base, email, random, now).response.Reply?
    ensures var out := Request(users, tokens, base, email, random, now);
            var parts := ParseLink(base, out.mail.value.link);
            && parts.Some?
            && Validate(users, out.tokens, parts.value.0, parts.value.1) == Reply(200, ValidLink)
  {
    var out := Request(users, tokens, base, email, random, now);
    var uid := FindByEmail(users, email.value).value;
    var token := out.tokens[uid].token;
    assert IsHexToken(token);
    assert '/' !in token by {
      assert forall i :: 0 <= i < |token| ==> IsHexChar(token[i]) && token[i] != '/';
    }
    LinkRoundTrip(base, uid, token);
  }

  // ---------------------------------------------------------------------------
  // POST /api/password-reset/:id/:token
  // ---------------------------------------------------------------------------

  const NoPassword := Rejection(400, "Please enter password!")
  const ResetDone := "Password reset successfully"

  datatype ConsumeOutcome = ConsumeOutcome(response: Response<string>, users: map<Id, User>, tokens: map<Id, ResetToken>)

  /** Setting a new password through a link. */
  function Consume(users: map<Id, User>, tokens: map<Id, ResetToken>, idText: string, token: string,
                   password: Option<string>, c: Crypto): (out: ConsumeOutcome)
    ensures !Truthy(password) ==> out == ConsumeOutcome(Reject(NoPassword), users, tokens)
    ensures Truthy(password) && Utf16Len(password.value) < MinPassword ==> out == ConsumeOutcome(Reject(ShortPassword), users, tokens)
    ensures !out.response.Reply? ==> out.users == users && out.tokens == tokens
    ensures out.response.Reply? <==>
              && Truthy(password) && Utf16Len(password.value) >= MinPassword
              && ParseId(idText).Some? && ParseId(idText).value in users
              && TokenMatches(tokens, ParseId(idText).value, token)
    ensures Truthy(password) && Utf16Len(password.value) >= MinPassword && ParseId(idText).Some? && !out.response.Reply?
            ==> out.response == Reject(InvalidLink)
    ensures out.response.Reply? ==>
              var id := ParseId(idText).value;
              && out.response == Reply(200, ResetDone)
              && out.users == users[id := users[id].(verified := true, password := c.hash(password.value))]
              && Verify(c, password.value, out.users[id].password)
              && out.tokens == tokens - {id}
  {
    if !Truthy(password) then ConsumeOutcome(Reject(NoPassword), users, tokens)
    else if Utf16Len(password.value) < MinPassword then ConsumeOutcome(Reject(ShortPassword), users, tokens)
    else
      match ParseId(idText)
      case None => ConsumeOutcome(Reject(CastFailed), users, tokens)
      case Some(id) =>
        if id !in users then ConsumeOutcome(Reject(InvalidLink), users, tokens)
        else if !TokenMatches(tokens, id, token) then ConsumeOutcome(Reject(InvalidLink), users, tokens)
        else
          var u := users[id].(verified := true, password := c.hash(password.value));
          ConsumeOutcome(Reply(200, ResetDone), users[id := u], tokens - {id})
  }

  /** A link works once: after a successful reset the same link is invalid, both to
      check and to use again, and nothing changes. */
  lemma ConsumeTwice(users: map<Id, User>, tokens: map<Id, ResetToken>, idText: string, token: string,
                     password: Option<string>, password2: Option<string>, c: Crypto)
    requires Consume(users, tokens, idText, token, password, c).response.Reply?
    requires Truthy(password2) && Utf16Len(password2.value) >= MinPassword
    ensures var after := Consume(users, tokens, idText, token, password, c);
            && Validate(after.users, after.tokens, idText, token) == Reject(InvalidLink)
            && Consume(after.users, after.tokens, idText, token, password2, c)
               == ConsumeOutcome(Reject(InvalidLink), after.users, after.tokens)
  {
  }

  /** After a reset the user logs in with the new password, keeping the email. */
  lemma LoginAfterReset(users: map<Id, User>, tokens: map<Id, ResetToken>, idText: string, token: string,
                        password: Option<string>, c: Crypto, now: int)
    requires UniqueEmails(users)
    requires Consume(users, tokens, idText, token, password, c).response.Reply?
    requires users[ParseId(idText).value].email != ""
    ensures var after := Consume(users, tokens, idText, token, password, c).users;
            var id := ParseId(idText).value;
            && UniqueEmails(after)
            && Login(after, LoginRequest(Some(after[id].email), password), c, now) == Reply(200, SessionFor(c, id, after[id], now))
  {
    var after := Consume(users, tokens, idText, token, password, c).users;
    var id := ParseId(idText).value;
    assert forall k :: k in after ==> after[k].email == users[k].email;
    var login := LoginRequest(Some(after[id].email), password);
    assert CredentialsMatch(after, login, c);
    var r := Login(after, login, c, now);
    var k :| k in after && after[k].email == after[id].email && r == Reply(200, SessionFor(c, k, after[k], now));
    assert k == id;
  }
}
