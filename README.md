# Elastos DID JS SDK — DID documents, resolution cache, transaction check, sort

A Dafny model of three pieces of the Elastos DID JavaScript SDK:

- **`DidDocument`** (src/diddocument/index.ts): building a DID document,
  adding credentials, presentations and services while it is unsealed,
  sealing it once with a proof, signing a presentation bound to a realm and
  a nonce, checking a signature, and resolving a DID through a five-minute
  cache kept in `localStorage` and the ledger RPC `core.rpcResolveDID`.
- **`IDTransaction`** (src/backend/idtransaction.ts): the transaction record
  and its `sanitize` guard chain.
- **`Collections.sort`** (src/collections.ts): the in-place sort with its
  inline comparator.

Files:

- `wrappers.dfy` — `Option` (JavaScript `null`/`undefined`), `Result` and
  `Outcome` (a thrown exception as a value).
- `entities.dfy` — the entities the document code works on (`Proof`,
  `PublicKey`, `Credential`, `Service`, `Presentation`, the JSON value
  `DocumentData`), the classes whose fields the code assigns (`Document`,
  `VerifiablePresentation`, `LocalStorage`), and `Core`, the collaborators
  the code calls, as uninterpreted functions.
- `diddocument.dfy` — the document operations. Pure functions (`AddCredential`,
  `Seal`, `VpProof`, `SearchDIDDocumentOnCache`, `MostRecent`, …) are the
  specification and carry the properties; the methods of class `DidDocument`
  follow the source statement by statement and are proved to leave exactly
  the state those functions describe.
- `idtransaction.dfy` — `IDTransaction`, its getters and `Sanitize`.
- `collections.dfy` — JavaScript string order, the comparator, and an
  insertion sort on an `array`, proved sorted and a permutation.

Two quirks of the source are modelled as written:

- `clearExpiredCacheItems` removes nothing: it reads `expiration` off the key
  strings (always `undefined`) and would only delete from its local array of
  keys (`DidDocument.ClearExpiredCacheItems`).
- `setDIDDocumentOnCache` reads `storage.key["elastos_cache"]`, a property of
  the `Storage.key` method, so every write starts from an empty cache and the
  stored cache afterwards holds only the DID just written
  (`CacheWriteThenSearch`).

Behaviour of the code worth knowing:

- an empty `transaction` array is truthy in JavaScript, so resolution reads
  `transaction[0]`, gets `undefined` and throws a `TypeError`;
- the resolved document is returned and cached as it is decoded; its proof
  is not checked;
- a cache entry is still served at exactly its expiration time (the test is
  `now > expiration`), and a lookup leaves expired entries in place;
- `isValid` reads `proof["signatureValue"]` by default, while `sealDocument`
  stores `proof.signature` (`DefaultIsValidMissesSealSignature`).

Also proved: `signVp` signs `json + realm + nonce`; for a fixed JSON and nonce
the realm determines the signed text and for a fixed JSON and realm the nonce
does, but the pair is not bound jointly: ("ab", "c") and ("a", "bc") give the
same text (`SignedInputDoesNotSeparateRealmFromNonce`).

## Model

| member | source | states |
|---|---|---|
| `DidDocuments.AddCredential` | src/diddocument/index.ts:27-37 | on a sealed document the result is the document unchanged; otherwise the credential list (created when absent) gains exactly the given credential at the end, earlier items and every other field unchanged |
| `DidDocuments.AddPresentation` | src/diddocument/index.ts:39-47 | the same for the presentation list |
| `DidDocuments.AddService` | src/diddocument/index.ts:49-57 | the same for the service list |
| `DidDocuments.PruneEmpty` | src/diddocument/index.ts:126-128 | each of the three collections is dropped exactly when it is present and empty; a non-empty or absent one is kept as it was; no other field changes |
| `DidDocuments.Seal` | src/diddocument/index.ts:119-140 | a sealed document is returned unchanged; otherwise the result is the pruned document plus a proof of type ECDSAsecp256r1, with the given creation time, creator `<did>#primary`, signature `signData` over the hex JSON of the proof-less pruned document, and no verification method, realm or nonce |
| `DidDocuments.SealedDocumentIsFinal` | src/diddocument/index.ts:119-124 | after sealing the document has a proof, and every add operation and every further seal returns it unchanged |
| `DidDocuments.ProofIsNeverReplaced` | src/diddocument/index.ts:27-57 | on a document that has a proof, no mutator and no seal changes the proof |
| `DidDocuments.VpProof` | src/diddocument/index.ts:152-164 | the presentation proof has type ECDSAsecp256r1, verification method `<did>#primary`, the given realm and nonce, and the signature over the hex of `json + realm + nonce` |
| `DidDocuments.SignedInputBindsRealm` | src/diddocument/index.ts:158-160 | with JSON and nonce fixed, two different realms give different signed text |
| `DidDocuments.SignedInputBindsNonce` | src/diddocument/index.ts:158-160 | with JSON and realm fixed, two different nonces give different signed text |
| `DidDocuments.SignedInputDoesNotSeparateRealmFromNonce` | src/diddocument/index.ts:160 | the realm/nonce boundary is not bound: ("ab", "c") and ("a", "bc") give the same signed text |
| `DidDocuments.IsValid` | src/diddocument/index.ts:179-186 | fails with a TypeError exactly when the document has no proof; otherwise answers `verifyData` over the hex JSON of the proof-stripped copy, with the proof field named by `propertyName` |
| `DidDocuments.DefaultIsValidMissesSealSignature` | src/diddocument/index.ts:179-185 | on a freshly sealed document the default property `signatureValue` is undefined while `signature` holds the signature, so the default check hands the verifier `undefined` |
| `DidDocuments.IndexOf` | src/diddocument/index.ts:197 | the result is the first index at or after `from` where the pattern occurs, or none when it occurs nowhere there |
| `DidDocuments.RemoveFirst` | src/diddocument/index.ts:197 | `replace` with a string pattern: unchanged when the pattern does not occur; otherwise exactly the first occurrence is cut out (the rest after the prefix when it starts the string) |
| `DidDocuments.SearchDidOfFullDid` | src/diddocument/index.ts:197 | `did:elastos:<id>` is searched as `<id>` |
| `DidDocuments.SearchDIDDocumentOnCache` | src/diddocument/index.ts:252-265 | returns a document exactly when a cache is stored, it has an entry for the DID and `now` is not past its expiration; the document returned is the entry's |
| `DidDocuments.CacheWriteThenSearch` | src/diddocument/index.ts:222-228 | a document written at time T is found for its DID at every `now <= T+300` and missed for `now > T+300`; every other DID misses after the write |
| `DidDocuments.EmptyStorageMisses` | src/diddocument/index.ts:253-255 | with no stored cache every lookup misses |
| `DidDocuments.SearchDIDDocumentOnBlockchain` | src/diddocument/index.ts:239-250 | a missing response, result or transaction list gives undefined; an empty list or a `transaction[0]` without operation throws a TypeError; otherwise `atob` of the payload failing throws, and its text decides: a syntax error throws, a falsy JSON value gives `Success(None)` (the code returns the falsy value itself, which its caller turns into undefined), a document is returned; a document is returned only in that last case |
| `DidDocuments.PayloadArgument` | src/diddocument/index.ts:248 | `atob` gets the payload converted to a string: the payload itself, "undefined" when it is missing, "null" when it is `null` |
| `DidDocuments.CacheWrite` | src/diddocument/index.ts:222-228 | the stored cache holds exactly one entry, for the DID written, expiring at now+300; every other storage item is kept |
| `DidDocuments.JsGreater` | src/diddocument/index.ts:235 | a comparison with `undefined` is false |
| `DidDocuments.DeleteIf` | src/diddocument/index.ts:235 | `delete keys[i]` leaves a hole at `i` when the guard holds, and touches nothing else; the length is kept |
| `DidDocuments.RpcHost` | src/diddocument/index.ts:190-193 | the `elastosRPCHost` option when given, otherwise the mainchain address |
| `DidDocuments.UseCache` | src/diddocument/index.ts:191-194 | the `useCache` option when given, otherwise true |
| `DidDocuments.MostRecent` | src/diddocument/index.ts:189-210 | an empty DID is rejected with nothing read; with the cache on, a hit is returned with no RPC call; otherwise one RPC call for the prefix-less DID is made and its outcome returned; the storage changes only when a document was found and the cache is on, and then holds that document with expiry now+300 |
| `DidDocuments.ResolvedDocumentIsServedFromCache` | src/diddocument/index.ts:199-207 | after a ledger resolution with the cache on, resolving the same DID within 300 seconds returns the same document with no RPC call, and after that makes the same RPC call again |
| `DidDocuments.ChainMissDoesNotWriteCache` | src/diddocument/index.ts:205-207 | a ledger lookup that finds nothing or throws leaves the storage as it was |
| `DidDocuments.DidDocument.constructor` | src/diddocument/index.ts:9-11 | the object keeps the given core |
| `DidDocuments.DidDocument.GetPublicKeyProperty` | src/diddocument/index.ts:171-177 | exactly one key: id `<did>#primary`, type ECDSAsecp256r1, controller the DID, the DID's base58 public key |
| `DidDocuments.DidDocument.NewDIDDocument` | src/diddocument/index.ts:13-21 | a fresh unsealed document with the DID as id, the given expiration, controller `[<did>#primary]`, the single primary public key and no collections |
| `DidDocuments.DidDocument.AddVerfiableCredentialToDIDDocument` | src/diddocument/index.ts:27-37 | the document's new value is `AddCredential` of its old value |
| `DidDocuments.DidDocument.AddVerfiablePresentationToDIDDocument` | src/diddocument/index.ts:39-47 | the document's new value is `AddPresentation` of its old value and the presentation's value |
| `DidDocuments.DidDocument.AddServiceToDIDDocument` | src/diddocument/index.ts:49-57 | the document's new value is `AddService` of its old value |
| `DidDocuments.DidDocument.SealDocument` | src/diddocument/index.ts:119-140 | the document's new value is `Seal` of its old value; the result is undefined for a sealed document and the document otherwise |
| `DidDocuments.DidDocument.SignVp` | src/diddocument/index.ts:152-164 | the presentation keeps its fields and gets `VpProof` over its old value as its proof |
| `DidDocuments.DidDocument.ClearExpiredCacheItems` | src/diddocument/index.ts:231-237 | the cache comes back exactly as it went in, and the local key array lists every key with no hole punched in it |
| `DidDocuments.DidDocument.SetDIDDocumentOnCache` | src/diddocument/index.ts:212-229 | the stored cache is replaced by one holding only this DID, with expiration now+300; other storage items unchanged |
| `DidDocuments.DidDocument.GetMostRecentDIDDocument` | src/diddocument/index.ts:189-210 | result, RPC call made and storage afterwards are those of `MostRecent` on the old storage |
| `IdTransactions.NewIDTransaction` | src/backend/idtransaction.ts:48-53 | the transaction holds the three arguments as given, each defaulting to null |
| `IdTransactions.GettersReturnConstructorArguments` | src/backend/idtransaction.ts:48-70 | the getters return the constructor's arguments, and arguments left out are null |
| `IdTransactions.Sanitize` | src/backend/idtransaction.ts:72-88 | fails with "Missing txid" exactly when the id is null or empty; with "Missing timestamp" exactly when the id is present and the timestamp null; with "Missing request" exactly when both are present and the request null; with "Invalid request" carrying the cause exactly when all are present and the request's own check fails; passes exactly when all are present and the request's check passes |
| `IdTransactions.SanitizeReportsFirstMissingField` | src/backend/idtransaction.ts:73-80 | when a field is missing, the error is the first missing one in the order txid, timestamp, request, has no cause, and does not depend on the request's own check |
| `Collections.LessIrreflexive` | src/collections.ts:33 | no string is less than itself |
| `Collections.LessAsymmetric` | src/collections.ts:33-34 | `n1 < n2` and `n2 < n1` never hold together |
| `Collections.LessTrichotomous` | src/collections.ts:33-35 | any two strings are less, equal or greater |
| `Collections.LessTransitive` | src/collections.ts:33 | string order is transitive |
| `Collections.StringComparator` | src/collections.ts:32-35 | -1 exactly when n1 < n2, 1 exactly when n1 > n2, 0 exactly when the strings are equal |
| `Collections.StringComparatorAntisymmetric` | src/collections.ts:32-35 | swapping the arguments negates the result |
| `Collections.StringComparatorTotal` | src/collections.ts:32-35 | any two strings are ordered one way or the other |
| `Collections.StringComparatorTransitive` | src/collections.ts:32-35 | the string comparator's order is transitive |
| `Collections.AdjacentSortedIsSorted` | src/collections.ts:31 | under a transitive comparator, each element at most its successor means every element at most every later one |
| `Collections.SwapDown` | src/collections.ts:31 | exchanges two neighbours in place and keeps the multiset |
| `Collections.InsertionStep` | src/collections.ts:31 | for a comparator that orders every pair, moving the inserted element past a larger neighbour keeps both sorted runs beside it in order |
| `Collections.Insert` | src/collections.ts:31 | keeps the multiset, and extends the sorted prefix by one element in place when the comparator orders every pair |
| `Collections.Sort` | src/collections.ts:31 | in place, the array holds the same multiset of elements for any comparator, and ends with each element at most its successor when the comparator orders every pair |
| `Collections.SortStrings` | src/collections.ts:30-40 | a string array ends in non-decreasing order (every pair) under the comparator, same length and multiset |
| `Collections.SortComparables` | src/collections.ts:36-37 | a `Comparable` array keeps its multiset; it is ordered by `compareTo` and nothing else when `compareTo` orders every pair, on every pair when it is also transitive |

## Left out

- `JSON.stringify`, the UTF-8 hex encoding, `signData`, `verifyData`,
  `atob`, `JSON.parse` and `core.rpcResolveDID` are uninterpreted functions
  of `Core`; nothing is proved about cryptography or encoding.
- The clock: `core.getTimestamp()` is the parameter `now` (seconds); the ISO
  texts `new Date().toISOString()…` and `getExpiration()` (now plus five
  years) are string parameters `created` and `expires`; no calendar
  arithmetic is modelled. One `getMostRecentDIDDocument` reads the clock
  three times: in the cache lookup (src/diddocument/index.ts:260), before the
  awaited RPC, and in `setDIDDocumentOnCache` and `clearExpiredCacheItems`
  (lines 223 and 233), after it. The model uses one `now` for all three, so
  the write time equals the lookup time; in `ResolvedDocumentIsServedFromCache`
  the 300-second window is counted from that single `now`.
- `async`/`await` is a plain sequential call; a rejected RPC promise (network
  failure) is not modelled, only a falsy or incomplete response.
- `console` logging is dropped.
- These operations of src/diddocument/index.ts are not modelled, because
  they build entities from the clock and the constructors of src/core:
  - `clone` (line 24) only calls `document.clone()`.
  - `createVerifiableCredential` (61-79) appends `SelfProclaimedCredential`
    or `VerifiableCredential` to the caller's own `subjectTypes` array, in
    place, and signs the credential with `sign`.
  - `createService` (81-87) and `createVerifiableCredentialVP` (90-106)
    build a service or an `AppIdCredential` and sign it with `sign`.
  - `createVerifiablePresentation` (108-115) wraps one credential and signs
    the presentation with `signVp`.
  - `getExpiration` (166-169) adds five years to its date argument, in
    place, and returns that same date.
  - `sign` (142-150) is a third signing routine. Its proof carries only the
    type and `verificationMethod` `<did>#primary`, and it signs the hex of
    the bare JSON, without pruning, `created` or realm and nonce.
- Only `signVp` (src/diddocument/index.ts:161) calls `this.core`. `sealDocument`
  (135), `sign` (147), `isValid` (185), `setDIDDocumentOnCache` (223),
  `clearExpiredCacheItems` (233), `searchDIDDocumentOnBlockchain` (241) and
  `searchDIDDocumentOnCache` (260) use a free name `core`, which the file
  never declares (line 2 imports only the type `Core`). The model uses one
  `Core` for all of them.
- Aliasing: the add operations store the item's value, so a later change to
  a pushed object (such as signing a presentation already added) is not
  reflected in the document.
- JSON distinguishes a `null` proof (signed by `sealDocument`) from a deleted
  one (verified by `isValid`); the model has one absent proof, so it does not
  show that these texts differ. No `verify(seal(d))` round trip is claimed.
- JavaScript values of the wrong kind: `did` is a string (only `""` is
  falsy), the options' `useCache` is a boolean, `realm` and `nonce` are
  strings, and any truthy parsed payload is taken as a document. An
  `elastosRPCHost` option that is present but `undefined` or `null` passes
  the `in` test (line 193) and reaches the RPC call as that value; the model
  has such an option either absent, which selects the mainchain address, or
  a string.
- `localStorage` holds text; the model keeps each item as the cache map it
  serialises, so the `JSON.stringify`/`JSON.parse` round trip of the cache is
  taken as exact and unparsable stored text is not modelled.
- String comparison is on Dafny characters (code points), while JavaScript
  compares UTF-16 code units; the two orders differ only above U+FFFF.
- `Collections.Sort`, `Collections.SortComparables`: the engine's sorting
  algorithm is unspecified; the model is an insertion sort. The result is a
  permutation for every comparator. ECMAScript promises a sorted result only
  for a consistent comparator, which among other things is transitive, and
  leaves the order implementation-defined otherwise. That the result is
  adjacent-sorted for a comparator that is merely total is a fact about this
  insertion sort, not a promise of `Array.prototype.sort`; the guarantee the
  engine gives is the one under a total and transitive comparator
  (`SortComparables`, and `SortStrings`). The TypeScript
  parameter type `Comparable<any>[] | string[]` makes each list homogeneous,
  so the two cases are two methods.
- src/core (the `Document`, `Proof` and other entity classes),
  src/constants and the request classes behind `IDTransaction` are not part
  of this model; `request.sanitize()` is a function parameter.
- src/xchacha20poly1305.ts (a libsodium adapter), src/didentity.ts (a
  serialisation stub and Java left in comments),
  src/backend/didresolveresponse.ts (a constructor forwarding to a superclass
  outside this model) and the build configuration are not modelled. The
  DID/DIDURL parser is not modelled.
