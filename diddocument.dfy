/**
 * `DidDocument` (src/diddocument/index.ts): building, mutating and sealing DID
 * documents, signing presentations, and resolving a DID through a five-minute
 * cache in `localStorage` and the ledger RPC.
 *
 * The pure functions below are the specification; the methods of class
 * `DidDocument` follow the source statement by statement and are proved to
 * leave exactly the state those functions describe.
 */
module DidDocuments {
  import opened Wrappers
  import opened Entities

  /** `<did>#primary`, the id of a DID's primary key. */
  function PrimaryKeyId(did: string): string {
    did + "#primary"
  }

  const CacheTtlSeconds := 5 * 60
  const CacheStorageKey := "elastos_cache"
  const DidPrefix := "did:elastos:"

  /** The errors the resolution path throws. */
  datatype JsError =
    | InvalidDid              // `new Error("Invalid DID")`
    | TypeError               // a property read on `undefined`
    | InvalidCharacterError   // `atob` on text that is not base64
    | SyntaxError             // `JSON.parse` on text that is not JSON

  // =====================================================================
  // Mutating and sealing a document
  // =====================================================================

  /** An absent collection reads as empty. */
  function Items<T>(list: Option<seq<T>>): seq<T> {
    list.GetOr([])
  }

  /** `after` is `before` (or a new empty list) with `item` pushed on the end. */
  predicate Appended<T(==)>(before: Option<seq<T>>, after: Option<seq<T>>, item: T) {
    var old_ := Items(before);
    && after.Some?
    && |after.value| == |old_| + 1
    && after.value[..|old_|] == old_
    && after.value[|old_|] == item
  }

  function AddCredential(d: DocumentData, vc: Credential): (r: DocumentData)
    ensures d.proof.Some? ==> r == d
    ensures d.proof.None? ==> Appended(d.verifiableCredential, r.verifiableCredential, vc)
    ensures d.proof.None? ==> r == d.(verifiableCredential := r.verifiableCredential)
  {
    if d.proof.Some? then d
    else d.(verifiableCredential := Some(Items(d.verifiableCredential) + [vc]))
  }

  function AddPresentation(d: DocumentData, vp: Presentation): (r: DocumentData)
    ensures d.proof.Some? ==> r == d
    ensures d.proof.None? ==> Appended(d.verifiablePresentation, r.verifiablePresentation, vp)
    ensures d.proof.None? ==> r == d.(verifiablePresentation := r.verifiablePresentation)
  {
    if d.proof.Some? then d
    else d.(verifiablePresentation := Some(Items(d.verifiablePresentation) + [vp]))
  }

  function AddService(d: DocumentData, s: Service): (r: DocumentData)
    ensures d.proof.Some? ==> r == d
    ensures d.proof.None? ==> Appended(d.service, r.service, s)
    ensures d.proof.None? ==> r == d.(service := r.service)
  {
    if d.proof.Some? then d
    else d.(service := Some(Items(d.service) + [s]))
  }

  /** `after` drops `before` exactly when it is present and empty. */
  predicate KeptUnlessEmpty<T(==)>(before: Option<seq<T>>, after: Option<seq<T>>) {
    && (after.Some? <==> before.Some? && |before.value| > 0)
    && (after.Some? ==> after == before)
  }

  function DropIfEmpty<T>(list: Option<seq<T>>): Option<seq<T>> {
    if list.Some? && |list.value| == 0 then None else list
  }

  /** The three `delete` statements of `sealDocument`. */
  function PruneEmpty(d: DocumentData): (r: DocumentData)
    ensures KeptUnlessEmpty(d.verifiableCredential, r.verifiableCredential)
    ensures KeptUnlessEmpty(d.verifiablePresentation, r.verifiablePresentation)
    ensures KeptUnlessEmpty(d.service, r.service)
    ensures r == d.(verifiableCredential := r.verifiableCredential,
                    verifiablePresentation := r.verifiablePresentation,
                    service := r.service)
  {
    d.(verifiableCredential := DropIfEmpty(d.verifiableCredential),
       verifiablePresentation := DropIfEmpty(d.verifiablePresentation),
       service := DropIfEmpty(d.service))
  }

  /** The bytes a document is signed over: the hex of its JSON text. */
  function DataToSign(core: Core, d: DocumentData): string {
    core.toHexUpper(core.stringifyDocument(d))
  }

  /**
   * `sealDocument` on a document value, `created` being the clock's ISO time.
   * A sealed document is returned as it is; otherwise its empty collections
   * are dropped and a proof over the result is attached.
   */
  function Seal(core: Core, e: DidElement, created: string, d: DocumentData): (r: DocumentData)
    ensures d.proof.Some? ==> r == d
    ensures d.proof.None? ==> r.proof.Some? && r.(proof := None) == PruneEmpty(d)
    ensures d.proof.None? ==>
      && r.proof.value.proofType == SignatureSuite
      && r.proof.value.created == Some(created)
      && r.proof.value.creator == Some(PrimaryKeyId(e.did))
      && r.proof.value.signature == Some(core.signData(DataToSign(core, r.(proof := None)), e.privateKey))
      && r.proof.value.verificationMethod == None
      && r.proof.value.realm == None
      && r.proof.value.nonce == None
  {
    if d.proof.Some? then d
    else
      var pruned := PruneEmpty(d);
      var proof := NewProof(SignatureSuite).(
        created := Some(created),
        creator := Some(PrimaryKeyId(e.did)),
        signature := Some(core.signData(DataToSign(core, pruned), e.privateKey)));
      pruned.(proof := Some(proof))
  }

  /**
   * Sealing is single-shot: afterwards the document has a proof, and every
   * mutator and every further seal returns it unchanged.
   */
  lemma SealedDocumentIsFinal(
    core: Core, e: DidElement, created: string, d: DocumentData,
    vc: Credential, vp: Presentation, s: Service, e2: DidElement, created2: string)
    ensures Seal(core, e, created, d).proof.Some?
    ensures var sealed := Seal(core, e, created, d);
      && AddCredential(sealed, vc) == sealed
      && AddPresentation(sealed, vp) == sealed
      && AddService(sealed, s) == sealed
      && Seal(core, e2, created2, sealed) == sealed
  {
  }

  /** An existing proof is never replaced by any mutator. */
  lemma ProofIsNeverReplaced(
    core: Core, e: DidElement, created: string, d: DocumentData,
    vc: Credential, vp: Presentation, s: Service)
    requires d.proof.Some?
    ensures AddCredential(d, vc).proof == d.proof
    ensures AddPresentation(d, vp).proof == d.proof
    ensures AddService(d, s).proof == d.proof
    ensures Seal(core, e, created, d).proof == d.proof
  {
  }

  // =====================================================================
  // Signing a presentation
  // =====================================================================

  /** The text `signVp` encodes and signs: the JSON, the realm, the nonce. */
  function SignedVpInput(json: string, realm: string, nonce: string): string {
    json + realm + nonce
  }

  /** The proof `signVp` attaches to a presentation. */
  function VpProof(core: Core, e: DidElement, vp: Presentation, realm: string, nonce: string): (p: Proof)
    ensures p.proofType == SignatureSuite
    ensures p.verificationMethod == Some(PrimaryKeyId(e.did))
    ensures p.realm == Some(realm) && p.nonce == Some(nonce)
    ensures p.signature == Some(core.signData(
      core.toHexUpper(SignedVpInput(core.stringifyPresentation(vp), realm, nonce)), e.privateKey))
    ensures p.created == None && p.creator == None
  {
    var json := core.stringifyPresentation(vp);
    NewProof(SignatureSuite).(
      verificationMethod := Some(PrimaryKeyId(e.did)),
      realm := Some(realm),
      nonce := Some(nonce),
      signature := Some(core.signData(core.toHexUpper(json + realm + nonce), e.privateKey)))
  }

  /** With the JSON and the nonce fixed, another realm gives other signed text. */
  lemma SignedInputBindsRealm(json: string, realm1: string, realm2: string, nonce: string)
    requires realm1 != realm2
    ensures SignedVpInput(json, realm1, nonce) != SignedVpInput(json, realm2, nonce)
  {
    var a, b := SignedVpInput(json, realm1, nonce), SignedVpInput(json, realm2, nonce);
    assert a[|json|..|json| + |realm1|] == realm1;
    assert b[|json|..|json| + |realm2|] == realm2;
  }

  /** With the JSON and the realm fixed, another nonce gives other signed text. */
  lemma SignedInputBindsNonce(json: string, realm: string, nonce1: string, nonce2: string)
    requires nonce1 != nonce2
    ensures SignedVpInput(json, realm, nonce1) != SignedVpInput(json, realm, nonce2)
  {
    var a, b := SignedVpInput(json, realm, nonce1), SignedVpInput(json, realm, nonce2);
    assert a[|json| + |realm|..] == nonce1;
    assert b[|json| + |realm|..] == nonce2;
  }

  /**
   * The realm and nonce are concatenated with no separator, so the signed
   * text does not fix the pair: moving the boundary gives the same text.
   */
  lemma SignedInputDoesNotSeparateRealmFromNonce(json: string)
    ensures SignedVpInput(json, "ab", "c") == SignedVpInput(json, "a", "bc")
  {
  }

  // =====================================================================
  // Checking a signature
  // =====================================================================

  /**
   * `isValid`: verifies `proof[propertyName]` against the JSON of a copy of
   * the document without its proof; `None` in the result's place is the
   * `TypeError` of reading a property of a missing proof. The document itself
   * is a value and is not changed.
   */
  function IsValid(core: Core, d: DocumentData, e: DidElement, propertyName: string := "signatureValue"): (r: Result<bool, JsError>)
    ensures r.Failure? <==> d.proof.None?
    ensures r.Failure? ==> r.error == TypeError
    ensures r.Success? ==>
      r.value == core.verifyData(DataToSign(core, d.(proof := None)), ProofProperty(d.proof.value, propertyName), e.publicKey)
  {
    var dataToValidate := DataToSign(core, d.(proof := None));
    if d.proof.None? then Failure(TypeError)
    else Success(core.verifyData(dataToValidate, ProofProperty(d.proof.value, propertyName), e.publicKey))
  }

  /**
   * `sealDocument` stores the signature under `signature`, while `isValid`
   * reads `signatureValue` by default: with the default it hands the verifier
   * `undefined` instead of the signature.
   */
  lemma DefaultIsValidMissesSealSignature(core: Core, e: DidElement, created: string, d: DocumentData)
    requires d.proof.None?
    ensures var sealed := Seal(core, e, created, d);
      && ProofProperty(sealed.proof.value, "signatureValue") == None
      && ProofProperty(sealed.proof.value, "signature") == sealed.proof.value.signature != None
      && IsValid(core, sealed, e) ==
         Success(core.verifyData(DataToSign(core, sealed.(proof := None)), None, e.publicKey))
  {
  }

  // =====================================================================
  // Resolution: the DID argument
  // =====================================================================

  /** `pat` occurs in `s` at index `i`. */
  predicate OccursAt(s: string, pat: string, i: int) {
    0 <= i && i + |pat| <= |s| && s[i..i + |pat|] == pat
  }

  /** The first index at or after `from` where `pat` occurs in `s`. */
  function IndexOf(s: string, pat: string, from: nat := 0): (r: Option<nat>)
    ensures r.Some? ==> from <= r.value && OccursAt(s, pat, r.value)
    ensures r.Some? ==> forall j :: from <= j < r.value ==> !OccursAt(s, pat, j)
    ensures r.None? ==> forall j :: from <= j ==> !OccursAt(s, pat, j)
    decreases |s| - from
  {
    if from + |pat| > |s| then None
    else if s[from..from + |pat|] == pat then Some(from)
    else IndexOf(s, pat, from + 1)
  }

  /** `s.replace(pat, "")`: deletes the first occurrence of `pat`, if any. */
  function RemoveFirst(s: string, pat: string): (r: string)
    ensures (forall j :: !OccursAt(s, pat, j)) ==> r == s
    ensures OccursAt(s, pat, 0) ==> r == s[|pat|..]
    ensures (exists j :: OccursAt(s, pat, j)) ==> |r| == |s| - |pat|
    ensures forall i :: OccursAt(s, pat, i) && (forall j :: 0 <= j < i ==> !OccursAt(s, pat, j)) ==>
      r == s[..i] + s[i + |pat|..]
  {
    match IndexOf(s, pat)
    case None => s
    case Some(i) => s[..i] + s[i + |pat|..]
  }

  /** A full DID is looked up under its method-specific id. */
  lemma SearchDidOfFullDid(id: string)
    ensures RemoveFirst(DidPrefix + id, DidPrefix) == id
  {
  }

  // =====================================================================
  // Resolution: cache and ledger lookups
  // =====================================================================

  /**
   * `searchDIDDocumentOnCache`: the cached document for `did`, unless there is
   * no stored cache, no entry, or `now` is past the entry's expiration.
   */
  function SearchDIDDocumentOnCache(items: map<string, CacheMap>, did: string, now: int): (r: Option<DocumentData>)
    ensures r.Some? <==>
      CacheStorageKey in items && did in items[CacheStorageKey] && now <= items[CacheStorageKey][did].expiration
    ensures r.Some? ==> r.value == items[CacheStorageKey][did].document
  {
    if CacheStorageKey !in items then None
    else
      var cache := items[CacheStorageKey];
      if did !in cache then None
      else if now > cache[did].expiration then None
      else Some(cache[did].document)
  }

  /** The storage after `setDIDDocumentOnCache(did, document)` at time `now`. */
  function CacheWrite(items: map<string, CacheMap>, did: string, document: DocumentData, now: int): (r: map<string, CacheMap>)
    ensures CacheStorageKey in r && r[CacheStorageKey].Keys == {did}
    ensures r[CacheStorageKey][did] == CacheItem(now + CacheTtlSeconds, document)
    ensures forall name :: name in items && name != CacheStorageKey ==> name in r && r[name] == items[name]
    ensures r.Keys == items.Keys + {CacheStorageKey}
  {
    items[CacheStorageKey := map[did := CacheItem(now + CacheTtlSeconds, document)]]
  }

  /**
   * A document written at time `t` is found for its DID at every time up to
   * `t + 300` and at no later time; every other DID misses, because a write
   * replaces the whole stored cache.
   */
  lemma CacheWriteThenSearch(items: map<string, CacheMap>, did: string, document: DocumentData, t: int, other: string, now: int)
    ensures SearchDIDDocumentOnCache(CacheWrite(items, did, document, t), did, now) ==
      if now <= t + CacheTtlSeconds then Some(document) else None
    ensures other != did ==> SearchDIDDocumentOnCache(CacheWrite(items, did, document, t), other, now) == None
  {
  }

  /** With no stored cache every lookup misses. */
  lemma EmptyStorageMisses(items: map<string, CacheMap>, did: string, now: int)
    requires CacheStorageKey !in items
    ensures SearchDIDDocumentOnCache(items, did, now) == None
  {
  }

  /**
   * What `atob` is given for a payload: it converts its argument to a
   * string, so a missing payload becomes "undefined" and a `null` one "null".
   */
  function PayloadArgument(payload: JsString): (text: string)
    ensures payload.Str? ==> text == payload.text
    ensures payload.Undefined? ==> text == "undefined"
    ensures payload.Null? ==> text == "null"
  {
    match payload
    case Undefined => "undefined"
    case Null => "null"
    case Str(text) => text
  }

  /**
   * `searchDIDDocumentOnBlockchain`: asks the ledger for `did` and decodes the
   * payload of `transaction[0]`. A missing response, result or transaction
   * list gives `undefined` (`Success(None)`). A falsy JSON payload is returned
   * by the code as that falsy value; the model collapses it to `Success(None)`
   * as well, since its only reader, `getMostRecentDIDDocument`, tests it for
   * truthiness and returns `undefined`.
   * An empty list is truthy in JavaScript, so it reaches `transaction[0]`,
   * which is `undefined`, and reading its operation throws.
   */
  function SearchDIDDocumentOnBlockchain(core: Core, did: string, rpcHost: string): (r: Result<Option<DocumentData>, JsError>)
    ensures var response := core.rpcResolveDID(did, rpcHost);
      (response.None? || response.value.result.None? || response.value.result.value.transaction.None?) ==>
        r == Success(None)
    ensures var response := core.rpcResolveDID(did, rpcHost);
      response == Some(RpcResponse(Some(RpcResult(Some([]))))) ==> r == Failure(TypeError)
    ensures r.Success? && r.value.Some? ==>
      var response := core.rpcResolveDID(did, rpcHost);
      && response.Some? && response.value.result.Some? && response.value.result.value.transaction.Some?
      && var transactions := response.value.result.value.transaction.value;
      && |transactions| > 0
      && transactions[0].operation.Some?
      && var text := core.atob(PayloadArgument(transactions[0].operation.value.payload));
      && text.Some?
      && core.parseJson(text.value) == Parsed(r.value.value)
    // a reachable `transaction[0]` decides the outcome by its operation, `atob` and `JSON.parse`
    ensures var response := core.rpcResolveDID(did, rpcHost);
      response.Some? && response.value.result.Some? && response.value.result.value.transaction.Some? ==>
      var transactions := response.value.result.value.transaction.value;
      && (|transactions| > 0 && transactions[0].operation.None? ==> r == Failure(TypeError))
      && (|transactions| > 0 && transactions[0].operation.Some? ==>
            match core.atob(PayloadArgument(transactions[0].operation.value.payload))
            case None => r == Failure(InvalidCharacterError)
            case Some(text) =>
              match core.parseJson(text)
              case Unparsable => r == Failure(SyntaxError)
              case Falsy => r == Success(None)
              case Parsed(document) => r == Success(Some(document)))
  {
    var response := core.rpcResolveDID(did, rpcHost);
    if response.None? || response.value.result.None? || response.value.result.value.transaction.None? then
      Success(None)
    else
      var transactions := response.value.result.value.transaction.value;
      if |transactions| == 0 then Failure(TypeError)
      else
        var lastTransaction := transactions[0];
        if lastTransaction.operation.None? then Failure(TypeError)
        else
          match core.atob(PayloadArgument(lastTransaction.operation.value.payload))
          case None => Failure(InvalidCharacterError)
          case Some(payload) =>
            match core.parseJson(payload)
            case Unparsable => Failure(SyntaxError)
            case Falsy => Success(None)
            case Parsed(document) => Success(Some(document))
  }

  // =====================================================================
  // Resolution: getMostRecentDIDDocument
  // =====================================================================

  /** The `options` object: each property may be left out. */
  datatype ResolveOptions = ResolveOptions(elastosRPCHost: Option<string>, useCache: Option<bool>)

  /** The `elastosRPCHost` option when given, else the mainchain address. */
  function RpcHost(core: Core, options: ResolveOptions): (host: string)
    ensures options.elastosRPCHost.None? ==> host == core.mainchainRpcAddress
    ensures options.elastosRPCHost.Some? ==> host == options.elastosRPCHost.value
  {
    options.elastosRPCHost.GetOr(core.mainchainRpcAddress)
  }

  /** The cache is used unless the caller turns it off. */
  function UseCache(options: ResolveOptions): (use: bool)
    ensures options.useCache.None? ==> use
    ensures options.useCache.Some? ==> use == options.useCache.value
  {
    options.useCache.GetOr(true)
  }

  /** A call of the ledger RPC: the DID searched and the host asked. */
  datatype RpcRequest = RpcRequest(did: string, host: string)

  /** What one resolution returns, which RPC call it made, and the storage afterwards. */
  datatype Resolution = Resolution(
    result: Result<Option<DocumentData>, JsError>,
    rpcRequest: Option<RpcRequest>,
    items: map<string, CacheMap>)

  /** `getMostRecentDIDDocument` at time `now`, over storage `items`. */
  function MostRecent(core: Core, items: map<string, CacheMap>, did: string, options: ResolveOptions, now: int): (r: Resolution)
    // an empty DID is rejected before anything is read
    ensures did == "" ==> r == Resolution(Failure(InvalidDid), None, items)
    // a cache hit is returned without asking the ledger
    ensures did != "" && UseCache(options) && SearchDIDDocumentOnCache(items, RemoveFirst(did, DidPrefix), now).Some? ==>
      r == Resolution(Success(SearchDIDDocumentOnCache(items, RemoveFirst(did, DidPrefix), now)), None, items)
    // otherwise the ledger is asked once, for the DID without its prefix
    ensures did != "" && !(UseCache(options) && SearchDIDDocumentOnCache(items, RemoveFirst(did, DidPrefix), now).Some?) ==>
      && r.rpcRequest == Some(RpcRequest(RemoveFirst(did, DidPrefix), RpcHost(core, options)))
      && r.result == SearchDIDDocumentOnBlockchain(core, RemoveFirst(did, DidPrefix), RpcHost(core, options))
    // the storage changes only when a document is found and the cache is on
    ensures r.items != items ==> UseCache(options) && r.result.Success? && r.result.value.Some?
    ensures r.rpcRequest.Some? && r.result.Success? && r.result.value.Some? ==>
      r.items == if UseCache(options) then CacheWrite(items, r.rpcRequest.value.did, r.result.value.value, now) else items
  {
    if did == "" then Resolution(Failure(InvalidDid), None, items)
    else
      var searchDid := RemoveFirst(did, DidPrefix);
      var found := SearchDIDDocumentOnCache(items, searchDid, now);
      if UseCache(options) && found.Some? then Resolution(Success(found), None, items)
      else
        var host := RpcHost(core, options);
        var document := SearchDIDDocumentOnBlockchain(core, searchDid, host);
        var request := Some(RpcRequest(searchDid, host));
        match document
        case Success(Some(doc)) =>
          Resolution(document, request, if UseCache(options) then CacheWrite(items, searchDid, doc, now) else items)
        case _ => Resolution(document, request, items)
  }

  /**
   * After a resolution that found a document on the ledger with the cache
   * on, the same DID resolves from the cache, without an RPC call and to the
   * same document, for the next 300 seconds; after that the ledger is asked
   * again.
   */
  lemma ResolvedDocumentIsServedFromCache(
    core: Core, items: map<string, CacheMap>, did: string, options: ResolveOptions, t: int, now: int)
    requires did != "" && UseCache(options)
    requires MostRecent(core, items, did, options, t).rpcRequest.Some?
    requires MostRecent(core, items, did, options, t).result.Success?
    requires MostRecent(core, items, did, options, t).result.value.Some?
    ensures var first := MostRecent(core, items, did, options, t);
      var second := MostRecent(core, first.items, did, options, now);
      && (now <= t + CacheTtlSeconds ==> second.rpcRequest == None && second.result == first.result)
      && (now > t + CacheTtlSeconds ==> second.rpcRequest == first.rpcRequest)
  {
  }

  /**
   * A chain lookup that finds nothing or fails leaves the storage as it was,
   * with or without the cache.
   */
  lemma ChainMissDoesNotWriteCache(core: Core, items: map<string, CacheMap>, did: string, options: ResolveOptions, now: int)
    requires MostRecent(core, items, did, options, now).rpcRequest.Some?
    requires !MostRecent(core, items, did, options, now).result.Success?
          || MostRecent(core, items, did, options, now).result.value.None?
    ensures MostRecent(core, items, did, options, now).items == items
  {
  }

  /** `x > v` in JavaScript: false when `v` is `undefined`. */
  function JsGreater(x: int, v: Option<int>): (r: bool)
    ensures v.None? ==> !r
  {
    v.Some? && x > v.value
  }

  /** `if (cond) delete keys[i]`: leaves a hole at index `i` of an array of keys. */
  function DeleteIf(keys: seq<Option<string>>, i: nat, cond: bool): (r: seq<Option<string>>)
    requires i < |keys|
    ensures |r| == |keys| && (cond ==> r[i] == None)
    ensures forall k :: 0 <= k < |keys| && (k != i || !cond) ==> r[k] == keys[k]
  {
    if cond then keys[i := None] else keys
  }

  // =====================================================================
  // The DidDocument object
  // =====================================================================

  class DidDocument {
    const core: Core

    constructor (core: Core)
      ensures this.core == core
    {
      this.core := core;
    }

    /** `getPublicKeyProperty`: the DID's primary key, as the only public key. */
    function GetPublicKeyProperty(e: DidElement): (keys: seq<PublicKey>)
      ensures |keys| == 1
      ensures keys[0].id == PrimaryKeyId(e.did) && keys[0].keyType == SignatureSuite
      ensures keys[0].controller == e.did && keys[0].publicKeyBase58 == e.publicKeyBase58
    {
      [PublicKey(PrimaryKeyId(e.did), SignatureSuite, e.did, e.publicKeyBase58)]
    }

    /**
     * `newDIDDocument`: an unsealed document whose controller and only public
     * key are the DID's primary key; `expires` is the ISO text of the
     * expiration date.
     */
    method NewDIDDocument(e: DidElement, expires: string) returns (d: Document)
      ensures fresh(d)
      ensures !d.HasProof()
      ensures d.id == e.did && d.expires == expires
      ensures d.controller == [PrimaryKeyId(e.did)]
      ensures d.publicKey == [PublicKey(PrimaryKeyId(e.did), SignatureSuite, e.did, e.publicKeyBase58)]
      ensures d.verifiableCredential == None && d.verifiablePresentation == None && d.service == None
    {
      d := new Document(e.did, GetPublicKeyProperty(e), [PrimaryKeyId(e.did)], expires, None);
    }

    method AddVerfiableCredentialToDIDDocument(document: Document, vc: Credential)
      modifies document
      ensures document.Data() == AddCredential(old(document.Data()), vc)
    {
      if document.HasProof() {
        return;
      }
      if document.verifiableCredential.None? {
        document.verifiableCredential := Some([]);
      }
      document.verifiableCredential := Some(document.verifiableCredential.value + [vc]);
    }

    /** The document keeps the presentation's current value. */
    method AddVerfiablePresentationToDIDDocument(document: Document, vp: VerifiablePresentation)
      modifies document
      ensures document.Data() == AddPresentation(old(document.Data()), old(vp.Data()))
    {
      if document.HasProof() {
        return;
      }
      if document.verifiablePresentation.None? {
        document.verifiablePresentation := Some([]);
      }
      document.verifiablePresentation := Some(document.verifiablePresentation.value + [vp.Data()]);
    }

    method AddServiceToDIDDocument(document: Document, service: Service)
      modifies document
      ensures document.Data() == AddService(old(document.Data()), service)
    {
      if document.HasProof() {
        return;
      }
      if document.service.None? {
        document.service := Some([]);
      }
      document.service := Some(document.service.value + [service]);
    }

    /**
     * `sealDocument`, `created` being the clock's ISO time: returns `None`
     * (`undefined`) for a sealed document, otherwise the document itself.
     */
    method SealDocument(e: DidElement, document: Document, created: string) returns (r: Option<Document>)
      modifies document
      ensures document.Data() == Seal(core, e, created, old(document.Data()))
      ensures r == if old(document.HasProof()) then None else Some(document)
    {
      if document.HasProof() {
        return None;
      }
      if document.verifiableCredential.Some? && |document.verifiableCredential.value| == 0 {
        document.verifiableCredential := None;
      }
      if document.verifiablePresentation.Some? && |document.verifiablePresentation.value| == 0 {
        document.verifiablePresentation := None;
      }
      if document.service.Some? && |document.service.value| == 0 {
        document.service := None;
      }
      var proof := NewProof(SignatureSuite);
      proof := proof.(created := Some(created));
      proof := proof.(creator := Some(PrimaryKeyId(e.did)));
      var dataToSign := core.toHexUpper(core.stringifyDocument(document.Data()));
      var signature := core.signData(dataToSign, e.privateKey);
      proof := proof.(signature := Some(signature));
      document.proof := Some(proof);
      return Some(document);
    }

    /** `signVp`: signs the presentation, bound to `realm` and `nonce`. */
    method SignVp(e: DidElement, vp: VerifiablePresentation, realm: string, nonce: string)
      modifies vp
      ensures vp.Data() == old(vp.Data()).(proof := Some(VpProof(core, e, old(vp.Data()), realm, nonce)))
    {
      var proof := NewProof(SignatureSuite);
      proof := proof.(verificationMethod := Some(PrimaryKeyId(e.did)));
      proof := proof.(realm := Some(realm));
      proof := proof.(nonce := Some(nonce));
      var json := core.stringifyPresentation(vp.Data());
      var dataToSign := core.toHexUpper(json + realm + nonce);
      var signature := core.signData(dataToSign, e.privateKey);
      proof := proof.(signature := Some(signature));
      vp.proof := Some(proof);
    }

    /**
     * `clearExpiredCacheItems`: walks the keys of `cache`, but the guard reads
     * `expiration` off a key string (always `undefined`, so `now > undefined`
     * is false) and the `delete` would only punch a hole in the local key
     * array. The cache comes back as it went in, and the key array (returned
     * here to show it) with no hole.
     */
    method ClearExpiredCacheItems(cache: CacheMap, now: int) returns (after: CacheMap, keys: seq<Option<string>>)
      ensures after == cache
      // the local key array lists every key of the cache and never gets a hole
      ensures forall k :: 0 <= k < |keys| ==> keys[k].Some? && keys[k].value in cache
      ensures forall key :: key in cache ==> Some(key) in keys
    {
      keys := [];
      var rest := cache.Keys;
      while rest != {}
        invariant rest <= cache.Keys
        invariant forall k :: 0 <= k < |keys| ==> keys[k].Some? && keys[k].value in cache
        invariant forall key :: key in cache ==> key in rest || Some(key) in keys
        decreases rest
      {
        var k :| k in rest;
        keys := keys + [Some(k)];
        rest := rest - {k};
      }
      var i := 0;
      while i < |keys|
        invariant 0 <= i <= |keys|
        invariant forall k :: 0 <= k < |keys| ==> keys[k].Some? && keys[k].value in cache
        invariant forall key :: key in cache ==> Some(key) in keys
      {
        var expiration: Option<int> := None;  // `keys[i]["expiration"]` on a string
        keys := DeleteIf(keys, i, JsGreater(now, expiration));
        i := i + 1;
      }
      after := cache;
    }

    /**
     * `setDIDDocumentOnCache`: reads `storage.key["elastos_cache"]`, a property
     * of the `key` method and never a stored value, so it always starts from
     * an empty cache; stores the document with an expiration 300 seconds from
     * now and writes the cache back, replacing whatever was stored.
     */
    method SetDIDDocumentOnCache(storage: LocalStorage, did: string, diddocument: DocumentData, now: int)
      modifies storage
      ensures storage.items == CacheWrite(old(storage.items), did, diddocument, now)
    {
      var read: Option<CacheMap> := None;  // `storage.key["elastos_cache"]`
      var cache := read.GetOr(map[]);
      var keys;
      cache, keys := ClearExpiredCacheItems(cache, now);
      cache := cache[did := CacheItem(now + CacheTtlSeconds, diddocument)];
      storage.items := storage.items[CacheStorageKey := cache];
    }

    /**
     * `getMostRecentDIDDocument`, run to completion at time `now`: the result
     * (or the error thrown), the RPC call made, and the storage afterwards
     * are those `MostRecent` describes.
     */
    method GetMostRecentDIDDocument(storage: LocalStorage, did: string, options: ResolveOptions, now: int)
      returns (r: Result<Option<DocumentData>, JsError>, rpcRequest: Option<RpcRequest>)
      modifies storage
      ensures Resolution(r, rpcRequest, storage.items) == MostRecent(core, old(storage.items), did, options, now)
    {
      var elastosRPCHost := core.mainchainRpcAddress;
      var useCache := true;
      if options.elastosRPCHost.Some? {
        elastosRPCHost := options.elastosRPCHost.value;
      }
      if options.useCache.Some? {
        useCache := options.useCache.value;
      }
      if did == "" {
        return Failure(InvalidDid), None;
      }
      var searchDid := RemoveFirst(did, DidPrefix);
      if useCache {
        var found := SearchDIDDocumentOnCache(storage.items, searchDid, now);
        if found.Some? {
          return Success(found), None;
        }
      }
      rpcRequest := Some(RpcRequest(searchDid, elastosRPCHost));
      var document := SearchDIDDocumentOnBlockchain(core, searchDid, elastosRPCHost);
      if document.Failure? {
        return document, rpcRequest;
      }
      if document.value.None? {
        return Success(None), rpcRequest;
      }
      if useCache {
        SetDIDDocumentOnCache(storage, searchDid, document.value.value, now);
      }
      return document, rpcRequest;
    }
  }
}
