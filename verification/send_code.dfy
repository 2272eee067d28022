/**
 * The login code request: which e-mail addresses may ask for a code, the 8-digit code itself,
 * and the order in which `POST /api/auth/send-code` validates, stores and sends it.
 */
module SendCode {
  import opened Wrappers
  import opened JsValue
  import opened Decimal

  // ---------------------------------------------------------------------------------------
  // isAllowedDomain
  // ---------------------------------------------------------------------------------------

  /** The company domains whose addresses may log in. */
  const AllowedDomains: seq<string> := ["oiltex.com", "unilinktransportation.com", "unilinkportal.com"]

  /** The text of `s` before its first `c` (all of `s` when there is none). */
  function Before(s: string, c: char): (r: string)
    ensures |r| <= |s| && r == s[..|r|] && c !in r
    ensures |r| < |s| ==> s[|r|] == c
  {
    if s == [] || s[0] == c then [] else [s[0]] + Before(s[1..], c)
  }

  /** `email.split("@")[1]`: the text between the first and the second '@'; none without an '@'. */
  function Domain(email: string): (r: Option<string>)
    ensures r.None? <==> '@' !in email
    ensures r.Some? ==> '@' !in r.value
  {
    var local := Before(email, '@');
    if |local| == |email| then None else Some(Before(email[|local| + 1..], '@'))
  }

  /** `toLowerCase` on one character, for the ASCII letters. */
  function LowerChar(c: char): (d: char)
    ensures 'A' <= c <= 'Z' ==> d as int == c as int + 32
    ensures !('A' <= c <= 'Z') ==> d == c
  {
    if 'A' <= c <= 'Z' then (c as int + 32) as char else c
  }

  /** `toLowerCase`, character by character. */
  function Lower(s: string): (r: string)
    ensures |r| == |s| && forall i :: 0 <= i < |s| ==> r[i] == LowerChar(s[i])
  {
    if s == [] then [] else [LowerChar(s[0])] + Lower(s[1..])
  }

  /** `isAllowedDomain`: the lowercased domain part is one of the allowed domains. */
  predicate IsAllowedDomain(email: string) {
    var d := Domain(email);
    d.Some? && Lower(d.value) in AllowedDomains
  }

  /**
   * Splitting at '@' takes apart what joining put together: the domain of `local@domain` is
   * `domain`, and anything after a second '@' plays no part.
   */
  lemma DomainOfParts(local: string, domain: string, rest: string)
    requires '@' !in local && '@' !in domain
    ensures Domain(local + "@" + domain) == Some(domain)
    ensures Domain(local + "@" + domain + "@" + rest) == Some(domain)
  {
    var one, two := local + "@" + domain, local + "@" + domain + "@" + rest;
    assert one == local + ("@" + domain) && two == local + ("@" + domain + "@" + rest);
    BeforeOfParts(local, "@" + domain);
    BeforeOfParts(local, "@" + domain + "@" + rest);
    assert one[|local| + 1..] == domain;
    assert two[|local| + 1..] == domain + ("@" + rest);
    BeforeOfParts(domain, "");
    assert domain + "" == domain;
    BeforeOfParts(domain, "@" + rest);
  }

  lemma {:induction false} BeforeOfParts(head: string, tail: string)
    requires '@' !in head && (tail == [] || tail[0] == '@')
    ensures Before(head + tail, '@') == head
  {
    if head != [] {
      assert (head + tail)[1..] == head[1..] + tail;
      BeforeOfParts(head[1..], tail);
    }
  }

  /** An address with no '@' never passes the domain check. */
  lemma NoAtNotAllowed(email: string)
    requires '@' !in email
    ensures !IsAllowedDomain(email)
  {
  }

  lemma {:induction false} LowerIdempotent(s: string)
    ensures Lower(Lower(s)) == Lower(s)
  {
    if s != [] {
      LowerIdempotent(s[1..]);
    }
  }

  lemma {:induction false} LowerBefore(s: string)
    ensures Before(Lower(s), '@') == Lower(Before(s, '@'))
  {
    if s != [] {
      assert Lower(s)[1..] == Lower(s[1..]);
      LowerBefore(s[1..]);
    }
  }

  lemma {:induction false} LowerSuffix(s: string, k: nat)
    requires k <= |s|
    ensures Lower(s)[k..] == Lower(s[k..])
  {
    if k > 0 {
      assert Lower(s)[1..] == Lower(s[1..]);
      assert s[1..][k - 1..] == s[k..];
      LowerSuffix(s[1..], k - 1);
    }
  }

  /** Letter case does not matter to the domain check. */
  lemma {:induction false} CaseInsensitive(email: string)
    ensures IsAllowedDomain(Lower(email)) == IsAllowedDomain(email)
  {
    var local := Before(email, '@');
    LowerBefore(email);
    if |local| < |email| {
      var tail := email[|local| + 1..];
      LowerSuffix(email, |local| + 1);
      LowerBefore(tail);
      LowerIdempotent(Before(tail, '@'));
    }
  }

  // ---------------------------------------------------------------------------------------
  // generateCode
  // ---------------------------------------------------------------------------------------

  /**
   * `generateCode`, where `r` is `Math.floor(Math.random() * 90000000)`: an 8-digit text with
   * no leading zero whose value is 10000000 + r, so distinct draws give distinct codes.
   */
  function GenerateCode(r: int): (code: string)
    requires 0 <= r < 90000000
    ensures |code| == 8 && AllDigits(code) && code[0] != '0'
    ensures DecimalValue(code) == 10000000 + r
  {
    var n := 10000000 + r;
    NatToDecimalRoundTrip(n);
    EightDigits(n);
    NatToDecimal(n)
  }

  /** The numbers from 10000000 to 99999999 are written with exactly 8 digits. */
  lemma EightDigits(n: nat)
    requires 10000000 <= n < 100000000
    ensures |NatToDecimal(n)| == 8
  {
    var s := NatToDecimal(n);
    NatToDecimalLength(n, 8);
    NatToDecimalRoundTrip(n);
    DecimalValueBound(s);
    if |s| < 8 {
      Pow10Monotone(|s|, 7);
      assert false;
    }
  }

  // ---------------------------------------------------------------------------------------
  // POST
  // ---------------------------------------------------------------------------------------

  /** A row of `auth_codes`; `expiresAt` in milliseconds since the epoch. */
  datatype AuthCode = AuthCode(email: string, code: string, expiresAt: int)

  /** How long a code stays valid, in milliseconds. */
  const CodeLifetime := 10 * 60 * 1000

  /**
   * The steps that can throw or fail: reading the JSON body (or taking `email` out of it),
   * connecting to the database or inserting the row, and the e-mail service's reply.
   */
  datatype Faults = Faults(bodyError: Option<string>, insertError: Option<string>, sendError: Option<string>)

  /** The JSON reply: its status code, `success`, and the `error`, `message` and `details` it carries. */
  datatype Response = Response(status: int, success: bool, error: Option<string>, message: Option<string>, details: Option<string>)

  const InvalidEmail := Response(400, false, Some("Valid email is required"), None, None)
  const Forbidden := Response(403, false, Some("Access restricted to authorized domains only"), None, None)
  const Sent := Response(200, true, None, Some("Verification code sent to your email"), None)

  /** A failure reported by the e-mail service. */
  function SendFailed(reason: string): Response {
    Response(500, false, Some("Failed to send email"), None, Some(reason))
  }

  /** The outer `catch`: anything thrown on the way. */
  function Crashed(reason: string): Response {
    Response(500, false, Some("Failed to send verification code"), None, Some(reason))
  }

  /** What a non-string, truthy `email` throws when its `includes` is called. */
  const NotAString := "email.includes is not a function"

  /**
   * `POST` for the body's `email`, the random draw `r`, the clock `now` and the faults:
   * the reply, and the row stored in `auth_codes`, if any.
   */
  function Outcome(email: Value, r: int, now: int, faults: Faults): (Response, Option<AuthCode>)
    requires 0 <= r < 90000000
  {
    if faults.bodyError.Some? then (Crashed(faults.bodyError.value), None)
    else if !Truthy(email) then (InvalidEmail, None)
    else if !email.Str? then (Crashed(NotAString), None)
    else if '@' !in email.s then (InvalidEmail, None)
    else if !IsAllowedDomain(email.s) then (Forbidden, None)
    else if faults.insertError.Some? then (Crashed(faults.insertError.value), None)
    else
      var row := AuthCode(email.s, GenerateCode(r), now + CodeLifetime);
      if faults.sendError.Some? then (SendFailed(faults.sendError.value), Some(row))
      else (Sent, Some(row))
  }

  /** A missing or empty email, or a text without '@', is answered 400 before the domain is looked at. */
  lemma InvalidBeforeDomain(email: Value, r: int, now: int, faults: Faults)
    requires 0 <= r < 90000000 && faults.bodyError.None?
    ensures !Truthy(email) ==> Outcome(email, r, now, faults) == (InvalidEmail, None)
    ensures email.Str? && '@' !in email.s ==> Outcome(email, r, now, faults) == (InvalidEmail, None)
  {
  }

  /** An address outside the allowed domains is answered 403, and no code is stored or sent. */
  lemma DisallowedStoresNothing(email: string, r: int, now: int, faults: Faults)
    requires 0 <= r < 90000000 && faults.bodyError.None?
    requires '@' in email && !IsAllowedDomain(email)
    ensures Outcome(Str(email), r, now, faults) == (Forbidden, None)
  {
  }

  /**
   * A stored code belongs to an allowed address exactly as it was given, is 8 digits and
   * expires ten minutes after the request.
   */
  lemma StoredCode(email: Value, r: int, now: int, faults: Faults)
    requires 0 <= r < 90000000
    ensures var stored := Outcome(email, r, now, faults).1;
      stored.Some? ==>
        email == Str(stored.value.email) && IsAllowedDomain(stored.value.email) &&
        |stored.value.code| == 8 && AllDigits(stored.value.code) &&
        DecimalValue(stored.value.code) == 10000000 + r && stored.value.expiresAt == now + 600000
  {
  }

  /**
   * The reply is a success exactly when nothing failed and the address is allowed; a failed
   * send is reported as 500 although the code is already stored.
   */
  lemma SuccessIff(email: Value, r: int, now: int, faults: Faults)
    requires 0 <= r < 90000000
    ensures Outcome(email, r, now, faults).0.status == 200 <==>
      faults.bodyError.None? && email.Str? && '@' in email.s && IsAllowedDomain(email.s) &&
      faults.insertError.None? && faults.sendError.None?
    ensures faults.sendError.Some? && Outcome(email, r, now, faults).1.Some? ==>
      Outcome(email, r, now, faults).0 == SendFailed(faults.sendError.value)
    ensures Outcome(email, r, now, faults).0.status == 200 ==> Outcome(email, r, now, faults).1.Some?
  {
  }

  /** The `auth_codes` table, as the rows inserted into it. */
  class AuthCodes {
    var rows: seq<AuthCode>

    /** Every stored code is an 8-digit code for an allowed address. */
    ghost predicate Valid()
      reads this
    {
      forall i :: 0 <= i < |rows| ==>
        IsAllowedDomain(rows[i].email) && |rows[i].code| == 8 && AllDigits(rows[i].code)
    }

    constructor()
      ensures Valid() && rows == []
    {
      rows := [];
    }

    /** The `INSERT INTO auth_codes`. */
    method Insert(row: AuthCode)
      modifies this
      ensures rows == old(rows) + [row]
    {
      rows := rows + [row];
    }

    /**
     * `POST /api/auth/send-code`: the reply and the stored row are those of `Outcome`, and
     * the table keeps holding only well-formed codes for allowed addresses.
     */
    method Post(email: Value, r: int, now: int, faults: Faults) returns (resp: Response)
      requires Valid() && 0 <= r < 90000000
      modifies this
      ensures Valid()
      ensures resp == Outcome(email, r, now, faults).0
      ensures var stored := Outcome(email, r, now, faults).1;
        rows == old(rows) + (if stored.Some? then [stored.value] else [])
    {
      if faults.bodyError.Some? {
        return Crashed(faults.bodyError.value);
      }
      if !Truthy(email) {
        return InvalidEmail;
      }
      if !email.Str? {
        return Crashed(NotAString);
      }
      if '@' !in email.s {
        return InvalidEmail;
      }
      if !IsAllowedDomain(email.s) {
        return Forbidden;
      }
      var code := GenerateCode(r);
      var expiresAt := now + CodeLifetime;
      if faults.insertError.Some? {
        return Crashed(faults.insertError.value);
      }
      Insert(AuthCode(email.s, code, expiresAt));
      if faults.sendError.Some? {
        return SendFailed(faults.sendError.value);
      }
      resp := Sent;
    }
  }
}
