/**
 * The mock OTP endpoints (src/api/mockApi.js): `sendOTP` always reports the
 * fixed code, and `verifyOTP` accepts exactly that code and issues a token
 * stamped with the current time, which is a parameter here.
 */
module MockApi {
  import opened Wrappers
  import opened JsString

  /** The one code the mock sends and accepts. */
  const MockOtp := "1234"
  const SentMessage := "OTP sent successfully"
  const VerifiedMessage := "OTP verified successfully"
  const InvalidMessage := "Invalid OTP"
  const TokenPrefix := "mock_token_"

  /** The object `sendOTP` resolves with. */
  datatype OtpSent = OtpSent(success: bool, message: string, otp: string)

  /** The object `verifyOTP` resolves with; a failure has no `token` property. */
  datatype OtpVerification = OtpVerification(success: bool, message: string, token: Option<string>)

  /** `sendOTP`: the phone number is not used. */
  function SendOtp(phone: string): (r: OtpSent)
    ensures r.success && r.otp == MockOtp
  {
    OtpSent(true, SentMessage, MockOtp)
  }

  /** `verifyOTP` at time `now`, the milliseconds `Date.now()` returns. */
  function VerifyOtp(phone: string, otp: string, now: nat): (r: OtpVerification)
    ensures r.success <==> otp == MockOtp
    ensures r.token.Some? <==> r.success
    ensures r.token.Some? ==> TokenPrefix <= r.token.value
  {
    if otp == MockOtp then OtpVerification(true, VerifiedMessage, Some(TokenPrefix + NumberToString(now)))
    else OtpVerification(false, InvalidMessage, None)
  }

  /** Sending always succeeds with the fixed code, whatever the phone. */
  lemma SendOtpAlwaysSucceeds(phone: string, other: string)
    ensures SendOtp(phone).success && SendOtp(phone).otp == "1234"
    ensures SendOtp(phone) == SendOtp(other)
  {
  }

  /**
   * Verification succeeds exactly for the code "1234" and does not depend on
   * the phone; a failure says "Invalid OTP" and carries no token, a success
   * carries a token that starts with `mock_token_`.
   */
  lemma VerifyOtpAcceptsOnlyMockOtp(phone: string, other: string, otp: string, now: nat)
    ensures VerifyOtp(phone, otp, now).success <==> otp == "1234"
    ensures VerifyOtp(phone, otp, now) == VerifyOtp(other, otp, now)
    ensures !VerifyOtp(phone, otp, now).success ==>
      VerifyOtp(phone, otp, now).message == "Invalid OTP" && VerifyOtp(phone, otp, now).token.None?
    ensures VerifyOtp(phone, otp, now).success ==>
      VerifyOtp(phone, otp, now).message == VerifiedMessage
      && VerifyOtp(phone, otp, now).token.Some? && TokenPrefix <= VerifyOtp(phone, otp, now).token.value
  {
  }

  /** Verifying the code that sending returned for the same phone always succeeds. */
  lemma SendThenVerify(phone: string, now: nat)
    ensures VerifyOtp(phone, SendOtp(phone).otp, now).success
    ensures VerifyOtp(phone, SendOtp(phone).otp, now).token.Some?
  {
  }

  /**
   * The token holds the time it was issued: after the prefix come the decimal
   * digits of `now` and nothing else, so tokens issued at different times differ.
   */
  lemma TokenCarriesTime(phone: string, now: nat, later: nat)
    ensures var token := VerifyOtp(phone, MockOtp, now).token.value;
      var digits := token[|TokenPrefix|..];
      AllDigits(digits) && DecimalValue(digits) == now
    ensures now != later ==> VerifyOtp(phone, MockOtp, now).token != VerifyOtp(phone, MockOtp, later).token
  {
    var token := TokenPrefix + NumberToString(now);
    assert token[|TokenPrefix|..] == NumberToString(now);
    DecimalValueOfNumberToString(now);
    DecimalValueOfNumberToString(later);
    if now != later {
      var other := TokenPrefix + NumberToString(later);
      assert other[|TokenPrefix|..] == NumberToString(later);
    }
  }
}
