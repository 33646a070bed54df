# SymmetricKeySecurityClient, modelled in Dafny

This project models `SymmetricKeySecurityClient` of the Azure IoT device SDK
for Node.js: the security client that a device enrolling with the Device
Provisioning Service uses when its identity is a symmetric key. The client
binds an identity (symmetric key, registration id) at construction, returns
the registration id on request, and on `createAuthenticationToken(idScope)`
validates the id scope, builds the resource
`idScope + "/registrations/" + registrationId`, has
`SharedAccessSignature.create` sign it under the key name `"registration"`
with the stored key and an expiry an hour ahead, caches the token in `_sas`
and delivers it.

Files:

- `js_values.dfy` (module `JsValues`): the JavaScript values a caller can pass
  for `idScope`, with ToBoolean (section 7.1.2 of ECMA-262), `typeof`
  (section 13.5.3 of ECMA-262) and the ToString of falsy values that the
  ReferenceError message appends.
- `symmetric_key.dfy` (module `SymmetricKey`): the error taxonomy, the
  canonical resource path and its inverse, the validation of `idScope`, the
  request handed to the signer, and the class `SymmetricKeySecurityClient`.

Modelling choices:

- `SharedAccessSignature.create` lives in `azure-iot-common`, which is not
  part of this model. It is the function parameter `create` of type
  `Signer<Sas>`, uninterpreted, and the token type is the class's type
  parameter `Sas`.
- `anHourFromNow()` reads the wall clock; its value is the parameter `expiry`.
- The callback-or-Promise delivery (`callbackToPromise`) becomes one
  synchronous `Result`: `Ok(token)` or `Err(ReferenceError(..))` /
  `Err(ArgumentError(..))`.
- The identity fields are never assigned after the constructor, so they are
  `const`; `CreateAuthenticationToken` may modify only `sas`.
- Every falsy `idScope` (`0`, `NaN`, `false`, `0n`, `null` as well as `""`
  and `undefined`) raises the ReferenceError, because the guard is
  `!idScope` (security/symmetric/src/symmetric_key.ts:48). The key name is
  the literal `"registration"` (security/symmetric/src/symmetric_key.ts:55).

## Model

| member | source | states |
|---|---|---|
| `JsValues.ToBoolean` | security/symmetric/src/symmetric_key.ts:48 | a value is falsy exactly when it is one of undefined, null, false, 0, NaN, 0n, ""; a string is truthy exactly when it is non-empty |
| `JsValues.FalsyText` | security/symmetric/src/symmetric_key.ts:49 | the text `'idScope is ' + idScope` appends for each falsy value: "undefined", "null", "false", "0" exactly for 0 and 0n, "NaN", and the empty text exactly for "" |
| `JsValues.TypeOf` | security/symmetric/src/symmetric_key.ts:52 | `typeof v` is "string" exactly for string values, and always one of the eight type tags |
| `SymmetricKey.ValidateIdScope` | security/symmetric/src/symmetric_key.ts:47-54 | a falsy idScope (even a non-string one such as 0) is a ReferenceError, checked first; a truthy non-string is an ArgumentError with the fixed message; only a non-empty string passes, unchanged; each falsy value has its own message: "idScope is " for "", "idScope is undefined", "idScope is null", "idScope is false", "idScope is 0" for 0 and 0n, "idScope is NaN" |
| `SymmetricKey.ResourcePath` | security/symmetric/src/symmetric_key.ts:55 | the resource is the id scope, then the separator "/registrations/" right after it, then the registration id, and nothing else |
| `SymmetricKey.SplitResource` | security/symmetric/src/symmetric_key.ts:55 | splitting a path at the first "/registrations/" gives a pair whose resource path is that path, with no separator inside the id scope; it fails exactly when the path has no separator |
| `SymmetricKey.SplitResourcePath` | security/symmetric/src/symmetric_key.ts:55 | for an id scope without '/', the resource path reads back into exactly that id scope and registration id |
| `SymmetricKey.ResourcePathAmbiguous` | security/symmetric/src/symmetric_key.ts:55 | with '/' allowed in the id scope, two different id scopes can sign the same resource |
| `SymmetricKey.ResourcePathInjective` | security/symmetric/src/symmetric_key.ts:55 | for one device, different id scopes give different resources; for one id scope, different devices give different resources |
| `SymmetricKey.RequestFor` | security/symmetric/src/symmetric_key.ts:47-55 | a call reaches the signer exactly when idScope is a non-empty string, and then asks for resource `idScope/registrations/registrationId`, key name "registration", the stored key and the given expiry; otherwise it raises the validation error |
| `SymmetricKey.RequestResourceNamesScopeAndDevice` | security/symmetric/src/symmetric_key.ts:55 | the resource of an issued request reads back into the id scope and the registration id it was issued for |
| `SymmetricKey.RequestsDifferOnlyInExpiry` | security/symmetric/src/symmetric_key.ts:55 | for a fixed identity and idScope, calls at different times succeed or fail alike, raise the same error, and ask for the same resource, key name and key, differing only in the expiry |
| `SymmetricKey.SymmetricKeySecurityClient.constructor` | security/symmetric/src/symmetric_key.ts:13-20 | the key (first argument) and the registration id are stored as given; no token is cached yet |
| `SymmetricKey.SymmetricKeySecurityClient.GetRegistrationId` | security/symmetric/src/symmetric_key.ts:30-34 | delivers exactly the registration id bound at construction and changes nothing |
| `SymmetricKey.SymmetricKeySecurityClient.CreateAuthenticationToken` | security/symmetric/src/symmetric_key.ts:45-58 | succeeds exactly for a non-empty string idScope; on failure it raises the validation error of that idScope; the token is `create(idScope + "/registrations/" + registrationId, "registration", symmetricKey, expiry)`; on success `_sas` holds the delivered token, on an error `_sas` is unchanged; the identity is never modified |

## Left out

- The internals of `SharedAccessSignature.create` (URL-encoding, HMAC-SHA256, base64, the serialized `SharedAccessSignature sr=…&sig=…&se=…&skn=…` form): foreign code, modelled as an uninterpreted total function. Any error `create` itself may raise is therefore not modelled: the signer always returns a token.
- That tokens issued at different times have different signatures: it rests on HMAC, which is not modelled; the model proves only that such requests differ in their expiry.
- `anHourFromNow()`: it reads the clock; the expiry is a parameter.
- `callbackToPromise` and the choice between an error-first callback and a Promise: presentation only; each call has one synchronous outcome.
- Concurrent calls racing on the `_sas` cache: the model is sequential.
- JavaScript numbers are modelled as reals plus NaN: -0 and +0 are one value, and the infinities are not represented. The guards treat -0 like 0 (falsy) and an infinity like any non-zero number (truthy), so no outcome is lost.
- The identity is taken as strings, as the constructor's parameters are typed. The source never checks them, so a caller that passes another value (or omits the registration id) gets that value turned into text inside the resource, for example `"<idScope>/registrations/undefined"`, and `getRegistrationId` then delivers the value itself; the model does not represent such a client.
