/** `SymmetricKeySecurityClient`: binds a device identity (a symmetric key and
    a registration id) and issues Shared Access Signature tokens for the
    Device Provisioning Service, scoped to a caller-supplied id scope.

    The signing engine (`SharedAccessSignature.create`) is foreign code: it is
    the uninterpreted function parameter `create`, and the token it returns is
    the type parameter `Sas`. The clock (`anHourFromNow()`) is the parameter
    `expiry`. */
module SymmetricKey {
  import opened JsValues

  datatype Option<T> = None | Some(value: T)

  /** The two exceptions `createAuthenticationToken` can raise. */
  datatype Error =
    | ReferenceError(message: string)
    | ArgumentError(message: string)

  /** One synchronous outcome per call: the value it delivers, or the error
      the call raises. */
  datatype Result<T> = Ok(value: T) | Err(error: Error)

  /** `SharedAccessSignature.create(resourceUri, keyName, key, expiry)`. */
  type Signer<Sas> = (string, string, string, int) -> Sas

  /** The arguments one call hands to the signer. */
  datatype SignRequest = SignRequest(resourceUri: string, keyName: string, key: string, expiry: int)

  /** Every token is signed under this key name. */
  const KeyName: string := "registration"

  /** The separator between the id scope and the registration id. */
  const Marker: string := "/registrations/"

  const ArgumentErrorMessage: string := "idScope must be of type string"

  // ---------------------------------------------------------------------
  // The canonical resource path and its inverse

  /** The resource a token authorizes: `idScope + '/registrations/' + registrationId`. */
  function ResourcePath(idScope: string, registrationId: string): (r: string)
    ensures |r| == |idScope| + |Marker| + |registrationId|
    ensures r[..|idScope|] == idScope && r[|idScope| + |Marker|..] == registrationId
    ensures MarkerAt(r, |idScope|)
  {
    idScope + Marker + registrationId
  }

  /** The separator occurs in `p` at index `j`. */
  predicate MarkerAt(p: string, j: int)
  {
    0 <= j && j + |Marker| <= |p| && p[j..j + |Marker|] == Marker
  }

  /** The index of the first occurrence of the separator in `p`, if any. */
  function FindMarker(p: string): (r: Option<nat>)
    ensures r.Some? ==> MarkerAt(p, r.value)
    ensures r.Some? ==> forall j :: 0 <= j < r.value ==> !MarkerAt(p, j)
    ensures r.None? ==> forall j :: !MarkerAt(p, j)
    decreases |p|
  {
    if |p| < |Marker| then None
    else if p[..|Marker|] == Marker then Some(0)
    else
      match FindMarker(p[1..])
      case None =>
        assert forall j :: MarkerAt(p, j) ==> j > 0 && MarkerAt(p[1..], j - 1);
        None
      case Some(i) =>
        assert forall j :: 0 < j <= i ==> (MarkerAt(p, j) <==> MarkerAt(p[1..], j - 1));
        assert MarkerAt(p[1..], i);
        assert p[1..][i..i + |Marker|] == p[i + 1..i + 1 + |Marker|];
        Some(i + 1)
  }

  /** Reads a resource path back into its id scope and registration id,
      splitting at the first separator. */
  function SplitResource(p: string): (r: Option<(string, string)>)
    ensures r.Some? ==> ResourcePath(r.value.0, r.value.1) == p
    ensures r.Some? ==> forall j :: 0 <= j < |r.value.0| ==> !MarkerAt(p, j)
    ensures r.None? <==> forall j :: !MarkerAt(p, j)
  {
    match FindMarker(p)
    case None => None
    case Some(i) =>
      assert p == p[..i] + p[i..i + |Marker|] + p[i + |Marker|..];
      Some((p[..i], p[i + |Marker|..]))
  }

  /** For an id scope without '/', the resource path determines both the id
      scope and the registration id. */
  lemma SplitResourcePath(idScope: string, registrationId: string)
    requires '/' !in idScope
    ensures SplitResource(ResourcePath(idScope, registrationId)) == Some((idScope, registrationId))
  {
    var p := ResourcePath(idScope, registrationId);
    var n := |idScope|;
    assert p[n..n + |Marker|] == Marker;
    assert MarkerAt(p, n);
    forall j | 0 <= j < n ensures !MarkerAt(p, j) {
      assert p[j] == idScope[j];
    }
    assert p[..n] == idScope;
    assert p[n + |Marker|..] == registrationId;
  }

  /** Without that restriction the path is ambiguous: two different
      (id scope, registration id) pairs sign the same resource. */
  lemma ResourcePathAmbiguous()
    ensures exists s1, d1, s2, d2 :: s1 != s2 && ResourcePath(s1, d1) == ResourcePath(s2, d2)
  {
    var s1, d1 := "a" + Marker + "b", "c";
    var s2, d2 := "a", "b" + Marker + "c";
    assert |s1| != |s2|;
    assert ResourcePath(s1, d1) == "a" + Marker + "b" + Marker + "c" == ResourcePath(s2, d2);
  }

  /** For one device, different id scopes never sign the same resource, and
      for one id scope, different devices never do. */
  lemma ResourcePathInjective(s1: string, d1: string, s2: string, d2: string)
    requires ResourcePath(s1, d1) == ResourcePath(s2, d2)
    ensures d1 == d2 ==> s1 == s2
    ensures s1 == s2 ==> d1 == d2
  {
    // Both follow from the prefix and suffix that ResourcePath ensures.
  }

  // ---------------------------------------------------------------------
  // Validation of `idScope` and the request handed to the signer

  /** The two guards, in source order: a falsy `idScope` is a ReferenceError
      (even a non-string falsy such as 0), then a non-string is an
      ArgumentError. */
  function ValidateIdScope(idScope: JsValue): (r: Result<string>)
    ensures r.Ok? <==> idScope.Str? && idScope.s != ""
    ensures r.Ok? ==> r.value == idScope.s
    ensures r.Err? && r.error.ReferenceError? <==>
              idScope in {Undefined, Null, Bool(false), Num(0.0), NaN, BigInt(0), Str("")}
    ensures r.Err? && r.error.ArgumentError? <==> ToBoolean(idScope) && !idScope.Str?
    ensures r == Err(ReferenceError("idScope is ")) <==> idScope == Str("")
    ensures r == Err(ReferenceError("idScope is undefined")) <==> idScope == Undefined
    ensures r == Err(ReferenceError("idScope is null")) <==> idScope == Null
    ensures r == Err(ReferenceError("idScope is false")) <==> idScope == Bool(false)
    ensures r == Err(ReferenceError("idScope is 0")) <==> idScope == Num(0.0) || idScope == BigInt(0)
    ensures r == Err(ReferenceError("idScope is NaN")) <==> idScope == NaN
    ensures r.Err? && r.error.ArgumentError? ==> r.error.message == ArgumentErrorMessage
  {
    if !ToBoolean(idScope) then
      Err(ReferenceError("idScope is " + FalsyText(idScope)))
    else if TypeOf(idScope) != "string" then
      Err(ArgumentError(ArgumentErrorMessage))
    else
      Ok(idScope.s)
  }

  /** What one `createAuthenticationToken(idScope)` call asks the signer for,
      or the error it raises before reaching the signer. */
  function RequestFor(symmetricKey: string, registrationId: string, idScope: JsValue, expiry: int): (r: Result<SignRequest>)
    ensures r.Ok? <==> idScope.Str? && idScope.s != ""
    ensures r.Err? ==> r == Err(ValidateIdScope(idScope).error)
    ensures r.Ok? ==> r.value.keyName == KeyName && r.value.key == symmetricKey && r.value.expiry == expiry
    ensures r.Ok? ==> r.value.resourceUri == ResourcePath(idScope.s, registrationId)
  {
    match ValidateIdScope(idScope)
    case Err(e) => Err(e)
    case Ok(scope) => Ok(SignRequest(ResourcePath(scope, registrationId), KeyName, symmetricKey, expiry))
  }

  /** The resource of every request names the id scope and the device it was
      issued for, and can be read back into them. */
  lemma RequestResourceNamesScopeAndDevice(symmetricKey: string, registrationId: string, idScope: string, expiry: int)
    requires idScope != "" && '/' !in idScope
    ensures RequestFor(symmetricKey, registrationId, Str(idScope), expiry).Ok?
    ensures SplitResource(RequestFor(symmetricKey, registrationId, Str(idScope), expiry).value.resourceUri)
            == Some((idScope, registrationId))
  {
    SplitResourcePath(idScope, registrationId);
  }

  /** Two calls with the same identity and id scope ask for the same
      resource, key name and key, and differ at most in the expiry. */
  lemma RequestsDifferOnlyInExpiry(symmetricKey: string, registrationId: string, idScope: JsValue, e1: int, e2: int)
    ensures RequestFor(symmetricKey, registrationId, idScope, e1).Ok? ==
            RequestFor(symmetricKey, registrationId, idScope, e2).Ok?
    ensures RequestFor(symmetricKey, registrationId, idScope, e1).Ok? ==>
              RequestFor(symmetricKey, registrationId, idScope, e2).value ==
              RequestFor(symmetricKey, registrationId, idScope, e1).value.(expiry := e2)
    ensures RequestFor(symmetricKey, registrationId, idScope, e1).Err? ==>
              RequestFor(symmetricKey, registrationId, idScope, e2) ==
              RequestFor(symmetricKey, registrationId, idScope, e1)
  {
  }

  // ---------------------------------------------------------------------
  // The client

  class SymmetricKeySecurityClient<Sas> {
    /** The identity, bound once by the constructor. */
    const symmetricKey: string
    const registrationId: string
    /** The most recently issued token; undefined until the first success. */
    var sas: Option<Sas>

    constructor (symmetricKey: string, registrationId: string)
      ensures this.symmetricKey == symmetricKey && this.registrationId == registrationId
      ensures sas == None
    {
      this.symmetricKey := symmetricKey;
      this.registrationId := registrationId;
      sas := None;
    }

    /** Delivers the registration id given at construction; changes nothing. */
    method GetRegistrationId() returns (id: string)
      ensures id == registrationId
    {
      id := registrationId;
    }

    /** Validates `idScope`, then signs `idScope + '/registrations/' +
        registrationId` under key name "registration" with the stored key,
        caches the token and delivers it. On an error nothing changes. */
    method CreateAuthenticationToken(idScope: JsValue, create: Signer<Sas>, expiry: int) returns (r: Result<Sas>)
      modifies this`sas
      ensures r.Err? ==> RequestFor(symmetricKey, registrationId, idScope, expiry) == Err(r.error)
      ensures r.Ok? <==> idScope.Str? && idScope.s != ""
      ensures r.Ok? ==> r.value == create(idScope.s + "/registrations/" + registrationId, "registration", symmetricKey, expiry)
      ensures r.Ok? ==> sas == Some(r.value)
      ensures r.Err? ==> sas == old(sas)
    {
      if !ToBoolean(idScope) {
        return Err(ReferenceError("idScope is " + FalsyText(idScope)));
      }
      if TypeOf(idScope) != "string" {
        return Err(ArgumentError(ArgumentErrorMessage));
      }
      var token := create(idScope.s + Marker + registrationId, KeyName, symmetricKey, expiry);
      sas := Some(token);
      r := Ok(token);
    }
  }
}
