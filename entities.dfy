/**
 * The entities the DID document layer works on. They are declared in
 * src/core, which is not part of this model; only the fields that
 * src/diddocument/index.ts reads or writes are kept. A JSON property that is
 * absent (or `null`) is `None`.
 */
module Entities {
  import opened Wrappers

  /** The signature suite every proof and public key of this SDK names. */
  const SignatureSuite := "ECDSAsecp256r1"

  /**
   * A proof envelope. `new Proof(type)` sets only the type; the signing code
   * fills in the other fields it uses.
   */
  datatype Proof = Proof(
    proofType: string,
    created: Option<string>,
    creator: Option<string>,
    verificationMethod: Option<string>,
    signature: Option<string>,
    realm: Option<string>,
    nonce: Option<string>)

  function NewProof(proofType: string): Proof {
    Proof(proofType, None, None, None, None, None, None)
  }

  /**
   * `proof[name]`: the field stored under a JSON property name; `None` is
   * `undefined`, which is what any other name reads.
   */
  function ProofProperty(p: Proof, name: string): Option<string> {
    if name == "type" then Some(p.proofType)
    else if name == "created" then p.created
    else if name == "creator" then p.creator
    else if name == "verificationMethod" then p.verificationMethod
    else if name == "signature" then p.signature
    else if name == "realm" then p.realm
    else if name == "nonce" then p.nonce
    else None
  }

  datatype PublicKey = PublicKey(id: string, keyType: string, controller: string, publicKeyBase58: string)

  datatype Service = Service(id: string, serviceType: string, serviceEndpoint: string, proof: Option<Proof>)

  datatype Credential = Credential(
    id: string,
    types: seq<string>,
    issuer: string,
    issuanceDate: string,
    expirationDate: string,
    proof: Option<Proof>)

  /** The JSON value of a verifiable presentation. */
  datatype Presentation = Presentation(
    presentationType: string,
    created: string,
    verifiableCredential: seq<Credential>,
    proof: Option<Proof>)

  /** The JSON value of a DID document: what `JSON.stringify` sees. */
  datatype DocumentData = DocumentData(
    id: string,
    publicKey: seq<PublicKey>,
    controller: seq<string>,
    expires: string,
    verifiableCredential: Option<seq<Credential>>,
    verifiablePresentation: Option<seq<Presentation>>,
    service: Option<seq<Service>>,
    proof: Option<Proof>)

  /** The identity a caller acts as: its DID and its key pair. */
  datatype DidElement = DidElement(did: string, privateKey: string, publicKey: string, publicKeyBase58: string)

  /** One entry of the resolution cache. */
  datatype CacheItem = CacheItem(expiration: int, document: DocumentData)

  type CacheMap = map<string, CacheItem>

  /**
   * A JSON string property as JavaScript reads it: missing (`undefined`),
   * present as `null`, or a string.
   */
  datatype JsString = Undefined | Null | Str(text: string)

  /** The parts of a `core.rpcResolveDID` response the resolver reads. */
  datatype Operation = Operation(payload: JsString)
  datatype Transaction = Transaction(operation: Option<Operation>)
  datatype RpcResult = RpcResult(transaction: Option<seq<Transaction>>)
  datatype RpcResponse = RpcResponse(result: Option<RpcResult>)

  /**
   * What `JSON.parse` makes of a decoded payload: a syntax error, a falsy
   * JSON value (`null`, `false`, `0`, `""`), or a document.
   */
  datatype ParsedPayload = Unparsable | Falsy | Parsed(document: DocumentData)

  /**
   * The collaborators the code calls but that are not modelled, as
   * uninterpreted functions: JSON serialisation, the upper-case hex encoding
   * of its UTF-8 bytes, signing and verifying, the ledger RPC call (DID,
   * host), `atob` (`None` when it throws) and `JSON.parse` of a payload, and
   * the default RPC address `Constants.elastosRPCAddress.mainchain`.
   */
  datatype Core = Core(
    stringifyDocument: DocumentData -> string,
    stringifyPresentation: Presentation -> string,
    toHexUpper: string -> string,
    signData: (string, string) -> string,
    verifyData: (string, Option<string>, string) -> bool,
    rpcResolveDID: (string, string) -> Option<RpcResponse>,
    atob: string -> Option<string>,
    parseJson: string -> ParsedPayload,
    mainchainRpcAddress: string)

  /** A DID document object, whose collections and proof are changed in place. */
  class Document {
    var id: string
    var publicKey: seq<PublicKey>
    var controller: seq<string>
    var expires: string
    var verifiableCredential: Option<seq<Credential>>
    var verifiablePresentation: Option<seq<Presentation>>
    var service: Option<seq<Service>>
    var proof: Option<Proof>

    constructor (id: string, publicKey: seq<PublicKey>, controller: seq<string>, expires: string, proof: Option<Proof>)
      ensures Data() == DocumentData(id, publicKey, controller, expires, None, None, None, proof)
    {
      this.id := id;
      this.publicKey := publicKey;
      this.controller := controller;
      this.expires := expires;
      this.verifiableCredential := None;
      this.verifiablePresentation := None;
      this.service := None;
      this.proof := proof;
    }

    /** A document with a proof is sealed. */
    predicate HasProof()
      reads this
    {
      proof.Some?
    }

    function Data(): DocumentData
      reads this
    {
      DocumentData(id, publicKey, controller, expires, verifiableCredential, verifiablePresentation, service, proof)
    }
  }

  /** A verifiable presentation object, whose proof is assigned in place. */
  class VerifiablePresentation {
    var presentationType: string
    var created: string
    var verifiableCredential: seq<Credential>
    var proof: Option<Proof>

    constructor (presentationType: string, created: string, verifiableCredential: seq<Credential>)
      ensures Data() == Presentation(presentationType, created, verifiableCredential, None)
    {
      this.presentationType := presentationType;
      this.created := created;
      this.verifiableCredential := verifiableCredential;
      this.proof := None;
    }

    function Data(): Presentation
      reads this
    {
      Presentation(presentationType, created, verifiableCredential, proof)
    }
  }

  /**
   * The browser's `localStorage`: the value stored under each item name.
   * Only the resolution cache is ever stored, so an item is kept as the
   * cache map it serialises.
   */
  class LocalStorage {
    var items: map<string, CacheMap>

    constructor ()
      ensures items == map[]
    {
      items := map[];
    }
  }
}
