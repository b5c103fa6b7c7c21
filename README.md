# One-time-passcode store of the admission-form backend

The backend of a student-admission form sends a one-time passcode (OTP) to a
phone number and later checks the code the student types in. It keeps the
issued codes in a process-wide object, `otpStore`, keyed by the phone number as
the client sent it. This project models that store and its two handlers, and
the required-attachment guard of the form submission handler:

- `/send-otp` (`OtpService.OtpStore.SendOtp`): refuses a falsy phone number
  with 400; otherwise draws a code in 1000..9999, overwrites the record under
  the phone key with `{otp, userName || "Student", expiresAt = now + 300000}`,
  and only then calls the messaging API. A failed call answers 500 and keeps
  the record.
- `/verify-otp` (`OtpService.OtpStore.VerifyOtp`, specified by
  `OtpService.Accepts`): succeeds exactly when a record exists under the raw
  phone key, its code equals `String(otpCode)`, and `now < expiresAt`. It never
  changes the store, so a code can be verified again until it expires.
- `/submit-form` (`SubmitForm.HandleSubmit`): answers 400 before anything is
  forwarded when the `mark10` or `idCard` upload is missing.

Modules:

- `JsValues` (`js_values.dfy`): the primitive JSON values a request body
  carries, JavaScript truthiness, and `String(v)`, which is also the property
  key a plain object uses for `obj[v]`. Decimal printing of integers is defined
  with its inverse reading, and proved round-trip and injective.
- `Http` (`http.dfy`): the replies, a status with the `{success, message}` body.
- `OtpService` (`otp_store.dfy`): the record, the store class, the handlers,
  and the lemmas about issue and verify.
- `SubmitForm` (`submit_form.dfy`): the submission guard.

`Date.now()` is a parameter `now` in milliseconds; `Math.random()` becomes an
integer draw `0 <= draw < 9000`, so the code is `1000 + draw`; the outcome of
each outbound HTTP call is a boolean parameter consulted only after the state
change it follows.

Behaviour of the code worth knowing:

- No normalisation: the raw `phoneNumber` is the key, so `"+91 98765 43210"`
  and `"9876543210"` are different keys (`OtpService.RawPhoneKey`).
- No consumption: a verified code stays valid until it expires
  (`OtpService.AcceptedUntilExpiry`, `OtpService.ReplayAfterFailedDelivery`).
- A failed verify answers 200 with `success: false`.

## Model

| member | source | states |
|---|---|---|
| `JsValues.Truthy` | index.js:26-34 | the falsy values are exactly undefined, null, false, 0 and "" (as `!phoneNumber` and the "Student" default of `userName` use them) |
| `JsValues.ToJsString` | index.js:68-72 | `String(v)`, also the property key of `otpStore[v]`: a string is its own key; a non-negative number gives a canonical numeral that reads back to it; a negative one gives "-" and the numeral of its magnitude; undefined, null, true and false give "undefined", "null", "true" and "false" |
| `JsValues.Decimal` | index.js:30 | the numeral of n is a canonical decimal numeral (digits only, no leading zero) and starts with '0' only for 0 |
| `JsValues.DecimalRoundTrip` | index.js:30 | reading back the numeral of n gives n |
| `JsValues.DecimalOfValue` | index.js:30 | every canonical numeral is the numeral of the number it denotes |
| `JsValues.DecimalInjective` | index.js:30 | two numbers print alike if and only if they are equal |
| `JsValues.DecimalLength` | index.js:30 | a number between 10^k and 10^(k+1) prints as k + 1 digits |
| `JsValues.NumberStringInjective` | index.js:72 | `String` of two integers (either sign) is equal if and only if the integers are equal |
| `OtpService.OtpStore.constructor` | index.js:18 | the store starts empty and well formed |
| `OtpService.OtpStore.SendOtp` | index.js:23-61 | a falsy phone number gives 400 "Phone required", sends nothing and leaves the store unchanged; otherwise the record `{code, userName or "Student", now + 300000}` replaces the one under the phone key, every other key is unchanged, the message carries campaign "OTP5", the raw phone number, the raw user name and the code, and the reply is 200 or 500 by delivery outcome with the record kept either way; every stored code stays a four-digit code |
| `OtpService.OtpStore.VerifyOtp` | index.js:66-79 | replies 200 in every case, with success exactly when `Accepts` holds, otherwise "Invalid or expired OTP"; the store is not modified |
| `OtpService.IssuedCode` | index.js:30 | the code `Math.floor(1000 + r * 9000).toString()` is exactly four digits with no leading zero and denotes 1000 + draw |
| `OtpService.NewRecord` | index.js:32-36 | the stored record holds the issued code, a truthy user name equal to the client's when that is truthy ("Student" otherwise), and expires 300000 ms after issue |
| `OtpService.AfterIssue` | index.js:32-36 | after `otpStore[phoneNumber] = {...}` the phone key holds the new record whatever it held before, and every other key keeps its entry |
| `OtpService.Accepts` | index.js:70-74 | (definition, no contract) a record exists under `String(phoneNumber)`, its code equals `String(otpCode)`, and `now < expiresAt`; its properties are the lemmas below |
| `OtpService.EveryOtpCodeIsIssuable` | index.js:30 | every four-digit code without a leading zero is issued by some draw, so the codes are exactly 1000..9999 |
| `OtpService.IssuePreservesWellFormed` | index.js:30-36 | issuing keeps every stored code a four-digit code |
| `OtpService.AcceptAfterIssue` | index.js:32-75 | right after an issue, a code is accepted for that phone exactly when `String(code)` is the issued code and the time is strictly before issue time + 300000 ms; the previous record plays no part, and at exactly the expiry time it fails |
| `OtpService.AcceptNumericCode` | index.js:30-75 | a code sent as a JSON number is accepted after an issue exactly when it equals 1000 + draw and the time is before expiry |
| `OtpService.ReissueInvalidatesEarlierCode` | index.js:32-72 | after a second issue for the same phone with a different draw, the first code is refused at every time, including inside its own window |
| `OtpService.IssueFrame` | index.js:32-36 | issuing for one phone key changes neither the presence nor the verification outcome of any other key |
| `OtpService.AcceptedUntilExpiry` | index.js:66-79 | an accepted code remains accepted at any time before the record's expiry: verification does not consume it |
| `OtpService.MalformedCodeRejected` | index.js:70-74 | in a well-formed store, a code whose string form is not four digits without a leading zero is never accepted |
| `OtpService.RawPhoneKey` | index.js:32-68 | a code issued for "9876543210" is accepted for it and refused for "+91 98765 43210": no normalisation |
| `OtpService.CoercedPhoneKeys` | index.js:67-68 | a phone sent as a number shares its key with its numeral sent as a string; a missing phone looks up the key "undefined" |
| `OtpService.ReplayAfterFailedDelivery` | index.js:32-79 | after an issue whose delivery failed (500), the stored code verifies successfully twice in a row within its five minutes |
| `OtpService.ReissueThenVerify` | index.js:32-79 | after two issues for one phone, within the first code's window, the first code is refused and the second accepted |
| `SubmitForm.HandleSubmit` | index.js:93-115 | the spreadsheet call is made exactly when `req.files` holds both `mark10` and `idCard`, and then carries name, phone and parentProfession; 400 exactly when `req.files` exists and one of the two is missing; the reply is 200 when the call succeeds and 500 when it fails; a 400 is always "Required files missing"; an undefined `req.files` is a 500 without forwarding |
| `SubmitForm.OptionalFilesIrrelevant` | index.js:86-101 | adding the optional upload fields mark11 and mark12 to a submission never changes its outcome |

## Left out

- Express setup, CORS, JSON body parsing, the `GET /` liveness route, `app.listen` and the port default: framework plumbing.
- Environment variables (`API_KEY`, `API_URL`, `GOOGLE_SHEET_URL`), the messaging API's URL, headers and bearer token, and the spreadsheet URL: configuration with no logic; the messages are modelled without them.
- The outbound HTTP calls themselves: each is a boolean outcome parameter; network errors, timeouts and response bodies are not modelled.
- Multer's disk storage of uploads and its rejection of unexpected upload fields (handled by the framework before the handler runs): file-system I/O; `req.files` is the set of field names that received a file.
- Concurrency: each handler runs as one atomic step; interleavings of other requests while `/send-otp` awaits the messaging API are not modelled (the record is already stored at that point).
- `console.error` logging.
- JSON values: numbers are the safe integers, of magnitude at most 2^53 - 1 (`Number.MAX_SAFE_INTEGER`); fractions, NaN and larger numbers (whose `String` is not their exact numeral) are not modelled, nor are objects and arrays in the request body.
- `otpStore` is modelled as a plain map; keys inherited from `Object.prototype` (such as `constructor` or `__proto__`) get no special treatment.
- The uniform distribution of `Math.random()`: only the range of the draw is modelled.
