/**
 * The one-time-passcode store of the admission backend and its two handlers:
 * `/send-otp` issues a four-digit code for a phone number and keeps it for
 * five minutes, `/verify-otp` checks a code against what is kept.
 *
 * The store is keyed by the phone number exactly as the client sent it,
 * coerced to a string the way a JavaScript object coerces property keys; no
 * normalisation happens. A successful verification does not remove the
 * record, so a code can be checked again and again until it expires.
 *
 * `Date.now()` is the parameter `now` (milliseconds), `Math.random()` is the
 * integer `draw`, and the outcome of the call to the messaging API is the
 * parameter `deliveryOk`.
 */
module OtpService {
  import opened JsValues
  import opened Http

  /** Lifetime of an issued code: five minutes, in milliseconds. */
  const TtlMs: int := 5 * 60 * 1000

  /** The smallest code `Math.floor(1000 + r * 9000)` can produce. */
  const CodeFloor: nat := 1000

  /** `Math.floor(1000 + r * 9000) - 1000` for the draw r = Math.random() in [0, 1). */
  type Draw = n: nat | n < 9000

  /** What `otpStore[phoneNumber]` holds after an issue. */
  datatype Record = Record(otp: string, userName: Json, expiresAt: int)

  /** The JSON body posted to the messaging API (its credentials are left out). */
  datatype OtpMessage = OtpMessage(campaignName: string, destination: Json, userName: Json, templateParams: seq<string>)

  /** Four decimal digits, the first not zero. */
  predicate IsOtpCode(s: string) {
    |s| == 4 && AllDigits(s) && s[0] != '0'
  }

  /**
   * `Math.floor(1000 + r * 9000).toString()`: four digits without a leading
   * zero, denoting 1000 + draw.
   */
  function IssuedCode(draw: Draw): (code: string)
    ensures IsOtpCode(code)
    ensures DigitsValue(code) == CodeFloor + draw
  {
    DecimalLength(CodeFloor + draw, 3);
    DecimalRoundTrip(CodeFloor + draw);
    Decimal(CodeFloor + draw)
  }

  /**
   * The record `/send-otp` stores: a well-formed code, a user name that is
   * always truthy (the client's if it is truthy, "Student" otherwise), and an
   * expiry five minutes after issue.
   */
  function NewRecord(userName: Json, draw: Draw, now: int): (r: Record)
    ensures IsOtpCode(r.otp) && r.otp == IssuedCode(draw)
    ensures Truthy(r.userName)
    ensures Truthy(userName) ==> r.userName == userName
    ensures !Truthy(userName) ==> r.userName == Str("Student")
    ensures r.expiresAt - now == 300000
  {
    Record(IssuedCode(draw), if Truthy(userName) then userName else Str("Student"), now + TtlMs)
  }

  /**
   * The store after `otpStore[phoneNumber] = {...}`: the phone key is present
   * and holds the new record whatever it held before, and every other key
   * keeps its entry.
   */
  function AfterIssue(store: map<string, Record>, phoneNumber: Json, userName: Json, draw: Draw, now: int)
    : (after: map<string, Record>)
    ensures after.Keys == store.Keys + {ToJsString(phoneNumber)}
    ensures after[ToJsString(phoneNumber)] == NewRecord(userName, draw, now)
    ensures forall key :: key in store && key != ToJsString(phoneNumber) ==> after[key] == store[key]
  {
    store[ToJsString(phoneNumber) := NewRecord(userName, draw, now)]
  }

  /**
   * The condition of `/verify-otp`: a record exists under the raw phone key,
   * its code equals `String(otpCode)`, and the current time is strictly
   * before its expiry.
   */
  predicate Accepts(store: map<string, Record>, phoneNumber: Json, otpCode: Json, now: int) {
    var key := ToJsString(phoneNumber);
    key in store && store[key].otp == ToJsString(otpCode) && now < store[key].expiresAt
  }

  /** Every stored code is one `/send-otp` can issue. */
  ghost predicate WellFormed(store: map<string, Record>) {
    forall key :: key in store ==> IsOtpCode(store[key].otp)
  }

  const PhoneRequired: Reply := Reply(400, false, Some("Phone required"))
  const InvalidOrExpired: Reply := Reply(200, false, Some("Invalid or expired OTP"))

  class OtpStore {
    /** `otpStore`: the raw phone key to its latest record. */
    var records: map<string, Record>

    ghost predicate Valid()
      reads this
    {
      WellFormed(records)
    }

    constructor ()
      ensures Valid() && records == map[]
    {
      records := map[];
    }

    /**
     * `/send-otp`. A falsy phone number is rejected with 400 and nothing
     * changes. Otherwise the record is stored first, then the message is
     * handed to the messaging API; a failed delivery answers 500 but keeps
     * the stored record.
     */
    method SendOtp(phoneNumber: Json, userName: Json, draw: Draw, now: int, deliveryOk: bool)
      returns (reply: Reply, sent: Option<OtpMessage>)
      requires Valid()
      modifies this
      ensures Valid()
      ensures !Truthy(phoneNumber) ==>
        reply == PhoneRequired && sent == None && records == old(records)
      ensures Truthy(phoneNumber) ==>
        && records == AfterIssue(old(records), phoneNumber, userName, draw, now)
        && sent == Some(OtpMessage("OTP5", phoneNumber, userName, [IssuedCode(draw)]))
        && reply == (if deliveryOk then Ok else ServerError)
    {
      if !Truthy(phoneNumber) {
        return PhoneRequired, None;
      }
      var otpCode := IssuedCode(draw);
      records := records[ToJsString(phoneNumber) :=
        Record(otpCode, if Truthy(userName) then userName else Str("Student"), now + TtlMs)];
      sent := Some(OtpMessage("OTP5", phoneNumber, userName, [otpCode]));
      if deliveryOk {
        reply := Ok;
      } else {
        reply := ServerError;
      }
    }

    /** `/verify-otp`: reads the store and never changes it. */
    method VerifyOtp(phoneNumber: Json, otpCode: Json, now: int) returns (reply: Reply)
      ensures reply.status == 200
      ensures reply.success <==> Accepts(records, phoneNumber, otpCode, now)
      ensures reply == Ok || reply == InvalidOrExpired
    {
      var key := ToJsString(phoneNumber);
      if key in records {
        var record := records[key];
        if record.otp == ToJsString(otpCode) && now < record.expiresAt {
          return Ok;
        }
      }
      reply := InvalidOrExpired;
    }
  }

  /** Conversely, every four-digit code without a leading zero is issued by some draw. */
  lemma EveryOtpCodeIsIssuable(code: string)
    requires IsOtpCode(code)
    ensures exists draw: Draw :: IssuedCode(draw) == code
  {
    var one, two, three := code[..1], code[..2], code[..3];
    assert one[..0] == [] && two[..1] == one && three[..2] == two && code[..3] == three;
    assert DigitsValue(one) == DigitValue(code[0]);
    assert DigitsValue(two) == DigitsValue(one) * 10 + DigitValue(code[1]);
    assert DigitsValue(three) == DigitsValue(two) * 10 + DigitValue(code[2]);
    var v := DigitsValue(code);
    assert v == DigitsValue(three) * 10 + DigitValue(code[3]);
    assert CodeFloor <= v < CodeFloor + 9000;
    DecimalOfValue(code);
    var draw: Draw := v - CodeFloor;
    assert IssuedCode(draw) == code;
  }

  /** Issuing keeps every stored code well formed. */
  lemma IssuePreservesWellFormed(store: map<string, Record>, phoneNumber: Json, userName: Json, draw: Draw, now: int)
    requires WellFormed(store)
    ensures WellFormed(AfterIssue(store, phoneNumber, userName, draw, now))
  {
  }

  /**
   * Right after an issue for a phone number, a code is accepted for it exactly
   * when it coerces to the issued code and the time is strictly before
   * issue time + five minutes; whatever was stored before is gone.
   */
  lemma AcceptAfterIssue(store: map<string, Record>, phoneNumber: Json, userName: Json, draw: Draw, now: int,
                         otpCode: Json, t: int)
    ensures Accepts(AfterIssue(store, phoneNumber, userName, draw, now), phoneNumber, otpCode, t)
        <==> ToJsString(otpCode) == IssuedCode(draw) && t < now + TtlMs
  {
  }

  /** A numeric code is accepted after an issue exactly when it is the number 1000 + draw. */
  lemma AcceptNumericCode(store: map<string, Record>, phoneNumber: Json, userName: Json, draw: Draw, now: int,
                          code: SafeInteger, t: int)
    ensures Accepts(AfterIssue(store, phoneNumber, userName, draw, now), phoneNumber, Number(code), t)
        <==> code == CodeFloor + draw && t < now + TtlMs
  {
    NumberStringInjective(code, CodeFloor + draw);
  }

  /**
   * A re-issue for the same phone number invalidates the earlier code (when the
   * two draws differ), even inside the earlier code's five minutes.
   */
  lemma ReissueInvalidatesEarlierCode(store: map<string, Record>, phoneNumber: Json,
                                      firstUser: Json, firstDraw: Draw, firstAt: int,
                                      secondUser: Json, secondDraw: Draw, secondAt: int, t: int)
    requires firstDraw != secondDraw
    ensures !Accepts(AfterIssue(AfterIssue(store, phoneNumber, firstUser, firstDraw, firstAt),
                                phoneNumber, secondUser, secondDraw, secondAt),
                     phoneNumber, Str(IssuedCode(firstDraw)), t)
  {
    DecimalInjective(CodeFloor + firstDraw, CodeFloor + secondDraw);
  }

  /** Issuing for one key leaves the verification outcome of every other key unchanged. */
  lemma IssueFrame(store: map<string, Record>, phoneNumber: Json, userName: Json, draw: Draw, now: int,
                   other: Json, otpCode: Json, t: int)
    requires ToJsString(other) != ToJsString(phoneNumber)
    ensures ToJsString(other) in AfterIssue(store, phoneNumber, userName, draw, now) <==> ToJsString(other) in store
    ensures Accepts(AfterIssue(store, phoneNumber, userName, draw, now), other, otpCode, t)
        <==> Accepts(store, other, otpCode, t)
  {
  }

  /** Verification does not consume: an accepted code stays accepted at every later time before expiry. */
  lemma AcceptedUntilExpiry(store: map<string, Record>, phoneNumber: Json, otpCode: Json, t: int, later: int)
    requires Accepts(store, phoneNumber, otpCode, t)
    requires later < store[ToJsString(phoneNumber)].expiresAt
    ensures Accepts(store, phoneNumber, otpCode, later)
  {
  }

  /** In a well-formed store a code that is not four digits without a leading zero is never accepted. */
  lemma MalformedCodeRejected(store: map<string, Record>, phoneNumber: Json, otpCode: Json, t: int)
    requires WellFormed(store)
    requires !IsOtpCode(ToJsString(otpCode))
    ensures !Accepts(store, phoneNumber, otpCode, t)
  {
  }

  /**
   * The key is the raw phone string: a code issued for "9876543210" is not
   * accepted for "+91 98765 43210".
   */
  lemma RawPhoneKey(userName: Json, draw: Draw, now: int)
    ensures Accepts(AfterIssue(map[], Str("9876543210"), userName, draw, now), Str("9876543210"), Str(IssuedCode(draw)), now)
    ensures !Accepts(AfterIssue(map[], Str("9876543210"), userName, draw, now), Str("+91 98765 43210"), Str(IssuedCode(draw)), now)
  {
  }

  /**
   * Key coercion: a phone number sent as a JSON number shares its key with its
   * numeral sent as a string, and a missing phone number looks up the key
   * "undefined".
   */
  lemma CoercedPhoneKeys(store: map<string, Record>, n: SafeInteger, otpCode: Json, t: int)
    requires n >= 0
    ensures Accepts(store, Number(n), otpCode, t) <==> Accepts(store, Str(Decimal(n)), otpCode, t)
    ensures Accepts(store, Undefined, otpCode, t) <==> Accepts(store, Str("undefined"), otpCode, t)
  {
  }

  /**
   * A code whose delivery failed is still stored, and it verifies twice in a
   * row within its five minutes: verification does not consume it.
   */
  method ReplayAfterFailedDelivery(phoneNumber: Json, userName: Json, draw: Draw, issuedAt: int, first: int, second: int)
    returns (sendReply: Reply, firstReply: Reply, secondReply: Reply)
    requires Truthy(phoneNumber)
    requires first < issuedAt + TtlMs && second < issuedAt + TtlMs
    ensures sendReply == ServerError
    ensures firstReply == Ok && secondReply == Ok
  {
    var store := new OtpStore();
    var sent;
    sendReply, sent := store.SendOtp(phoneNumber, userName, draw, issuedAt, false);
    firstReply := store.VerifyOtp(phoneNumber, Str(IssuedCode(draw)), first);
    secondReply := store.VerifyOtp(phoneNumber, Str(IssuedCode(draw)), second);
  }

  /**
   * Two issues for the same phone number: afterwards the first code is
   * refused even inside its own five minutes, and the second is accepted.
   */
  method ReissueThenVerify(phoneNumber: Json, firstDraw: Draw, secondDraw: Draw, firstAt: int, secondAt: int, t: int)
    returns (oldCodeReply: Reply, newCodeReply: Reply)
    requires Truthy(phoneNumber) && firstDraw != secondDraw
    requires firstAt <= secondAt <= t < firstAt + TtlMs
    ensures oldCodeReply == InvalidOrExpired
    ensures newCodeReply == Ok
  {
    var store := new OtpStore();
    var reply, sent := store.SendOtp(phoneNumber, Undefined, firstDraw, firstAt, true);
    reply, sent := store.SendOtp(phoneNumber, Undefined, secondDraw, secondAt, true);
    ReissueInvalidatesEarlierCode(map[], phoneNumber, Undefined, firstDraw, firstAt, Undefined, secondDraw, secondAt, t);
    oldCodeReply := store.VerifyOtp(phoneNumber, Str(IssuedCode(firstDraw)), t);
    newCodeReply := store.VerifyOtp(phoneNumber, Str(IssuedCode(secondDraw)), t);
  }
}
