# Address entity of the BlockCypher PHP wallet sample

This project models the `Address` domain entity of the wallet sample. An
`Address` is a blockchain address that belongs to a wallet. It carries its
key material (private key, WIF-encoded private key, public key) and metadata
(tag, callback URL, creation time). The model covers the following:

- The entity itself. It is a frozen record of eight fields. The Dafny
  datatype constructor stands for the PHP constructor, and its field names
  stand for the getters.
- Its array form. `ToArray` and `FromArray` convert between the entity and
  an eight-key mapping whose values are `Entry` values.
- The three static batch helpers. They are methods with loops, each proved
  against a recursive specification function (`ToArrays`, `FromArrays`,
  `AddressesOf`).
- The one-way transform `EncryptUsing` into a separate `EncryptedAddress`
  type. The encryptor is a function parameter `string -> string`.
- `Equals`, which compares only the address string.

Files:

- `values.dfy` (module `Values`): the leaf values `WalletId`, `DateTime` and
  `Entry`, plus `Result` for the constructor's type errors.
- `address.dfy` (module `AddressDomain`): the entity and its operations.
- `batch.dfy` (module `AddressBatch`): the batch helpers.

Behaviour of the code that the model keeps:

- **walletId is asymmetric.** `toArray` stores WalletId's own array form
  (`Entry.WalletIdArray`). `fromArray` passes the entry to a constructor
  parameter typed `WalletId`.
  - So, as written, `fromArray(toArray(a))` raises a TypeError on walletId
    (`FromArrayRejectsToArray`, `BatchRoundTripAsWritten`).
  - The round trip holds once the walletId entry is decoded back into a
    WalletId object (`DecodeWalletId`, `RoundTripFromEntity`,
    `RoundTripFromArray`, `BatchRoundTrip`).
  - The model assumes WalletId's array form can be decoded back to the same
    WalletId. WalletId is not part of this model.
- **Type errors in `fromArray`.** The constructor's typed parameters are
  checked in argument order. A walletId that is not a WalletId object fails
  first, then a creationTime that is not a `\DateTime`. The model returns
  these failures as `Err(TypeError(key))`.
- **No key checking in `fromArray`.** `fromArray` looks only at its eight
  keys.
  - A missing key, or a non-string value under one of the six untyped
    string parameters, is excluded by the precondition `WellShaped`. PHP
    does not check either case.
  - Extra keys are ignored (`FromArrayIgnoresExtraKeys`): `fromArray`
    checks neither missing nor extra keys (Address.php:166-175), and the
    model follows the code.
- **Batch failures.** `ArrayToObjectArray` sends every element through the
  single-entity `fromArray`. The first rejected element's exception ends
  the batch, so no partial result is returned.
- **Clones are value copies.** The two `clone` calls (constructor and
  `toArray`) copy the creation time. In a value model such a copy is the
  value itself.

## Model

| member | source | states |
|---|---|---|
| AddressDomain.ConstructorStoresArguments | src/BlockCypher/AppWallet/Domain/Address/Address.php:70-89 | each of the eight arguments is stored unchanged in its field and read back by its getter; creationTime is a copy equal in value |
| AddressDomain.ToArray | src/BlockCypher/AppWallet/Domain/Address/Address.php:104-117 | the array form has exactly the keys address, walletId, creationTime, tag, private, public, wif, callbackUrl |
| AddressDomain.ToArrayFieldByField | src/BlockCypher/AppWallet/Domain/Address/Address.php:106-114 | the array has eight entries; each holds its field's value, except walletId, which holds WalletId's array form |
| AddressDomain.FromArray | src/BlockCypher/AppWallet/Domain/Address/Address.php:164-178 | succeeds exactly when walletId is a WalletId object and creationTime is a DateTime; otherwise a TypeError naming walletId first, then creationTime; on success toArray gives back every entry except walletId, which comes back in array form |
| AddressDomain.FromArrayRejectsToArray | src/BlockCypher/AppWallet/Domain/Address/Address.php:164-178 | as written, fromArray applied to toArray's output is a TypeError on walletId, for every address |
| AddressDomain.RoundTripFromEntity | src/BlockCypher/AppWallet/Domain/Address/Address.php:104-178 | toArray, then decoding walletId, then fromArray gives back the same address in all eight fields |
| AddressDomain.RoundTripFromArray | src/BlockCypher/AppWallet/Domain/Address/Address.php:104-178 | an eight-key array that fromArray accepts comes back unchanged from toArray followed by the walletId decode step |
| AddressDomain.FromArrayIgnoresExtraKeys | src/BlockCypher/AppWallet/Domain/Address/Address.php:164-178 | fromArray does not check keys: adding a key outside the eight does not change its result |
| AddressDomain.EncryptUsing | src/BlockCypher/AppWallet/Domain/Address/Address.php:184-198 | private and wif are the encryptor's output on the plain private and wif; with those two put back, the record is the original address, so the other six fields are carried over verbatim |
| AddressDomain.EncryptUsingChangesOnlySecrets | src/BlockCypher/AppWallet/Domain/Address/Address.php:184-198 | private and wif become the encryptor's output on them; address, walletId, creationTime, tag, public and callbackUrl are carried over verbatim |
| AddressDomain.EncryptUsingLosesNothing | src/BlockCypher/AppWallet/Domain/Address/Address.php:184-198 | a decryptor that undoes the encryptor on the two secrets rebuilds the original address from the encrypted one |
| AddressDomain.EncryptUsingInjective | src/BlockCypher/AppWallet/Domain/Address/Address.php:184-198 | with an injective encryptor, different addresses give different encrypted addresses |
| AddressDomain.EncryptUsingExample | src/BlockCypher/AppWallet/Domain/Address/Address.php:184-198 | with an encryptor that appends "_ENC", only private and wif change |
| AddressDomain.Equals | src/BlockCypher/AppWallet/Domain/Address/Address.php:262-268 | equals holds exactly when the address entries of the two array forms agree; identical records are always equal |
| AddressDomain.EqualsIsEquivalence | src/BlockCypher/AppWallet/Domain/Address/Address.php:262-268 | equals is reflexive, symmetric and transitive |
| AddressDomain.EqualsIgnoresOtherFields | src/BlockCypher/AppWallet/Domain/Address/Address.php:262-268 | equals holds exactly when the address strings are identical, whatever the other seven fields hold |
| AddressDomain.EqualsIsNotRecordEquality | src/BlockCypher/AppWallet/Domain/Address/Address.php:262-268 | two records with one address and different private, public and wif keys compare equal yet are different records |
| AddressBatch.ToArrays | src/BlockCypher/AppWallet/Domain/Address/Address.php:95-102 | same length as the input; the i-th element is toArray of the i-th address |
| AddressBatch.ObjectArrayToArray | src/BlockCypher/AppWallet/Domain/Address/Address.php:95-102 | the loop appends toArray of each address in order: same length, i-th element is toArray of the i-th input, equal to ToArrays |
| AddressBatch.AddressesOf | src/BlockCypher/AppWallet/Domain/Address/Address.php:124-137 | same length as the input; the i-th element is the i-th address string |
| AddressBatch.ObjectArrayToAddressList | src/BlockCypher/AppWallet/Domain/Address/Address.php:124-137 | the early return on empty input and the loop both give the address strings in input order, equal to AddressesOf |
| AddressBatch.FromArrays | src/BlockCypher/AppWallet/Domain/Address/Address.php:151-158 | succeeds exactly when fromArray accepts every element, then the i-th entity is fromArray of the i-th array; otherwise the error of the first rejected element |
| AddressBatch.ArrayToObjectArray | src/BlockCypher/AppWallet/Domain/Address/Address.php:151-158 | the loop routes each element through fromArray and stops at the first rejection; its result equals FromArrays |
| AddressBatch.FirstRejected | src/BlockCypher/AppWallet/Domain/Address/Address.php:151-158 | if every element before the i-th is accepted and the i-th is rejected, the batch fails with the i-th element's error |
| AddressBatch.BatchRoundTrip | src/BlockCypher/AppWallet/Domain/Address/Address.php:95-158 | converting a sequence of addresses to arrays, decoding walletIds and converting back gives the same addresses in the same order |
| AddressBatch.BatchRoundTripAsWritten | src/BlockCypher/AppWallet/Domain/Address/Address.php:95-158 | as written, converting a non-empty sequence to arrays and straight back fails with a TypeError on walletId |
| AddressBatch.AddressListMatchesArrays | src/BlockCypher/AppWallet/Domain/Address/Address.php:95-137 | the i-th address in the address list is the address entry of the i-th array |
| AddressBatch.EmptyBatches | src/BlockCypher/AppWallet/Domain/Address/Address.php:95-158 | empty input gives empty output for all three batch helpers |

## Left out

- Encryptor failures. The encryptor is a total function parameter, so an encryption error propagating out of `encryptUsing` is not modelled. Its algorithm belongs to the Encryptor service, which is not part of this model.
- Internals of WalletId, EncryptedAddress, the Model base class and the Encryptable interface. WalletId is an opaque value with an abstract array form. EncryptedAddress is a datatype with Address's shape.
- `\DateTime` semantics and PHP object aliasing. `getCreationTime` returns the stored object itself, not a copy. A value model cannot express the aliasing that allows, so no defensive copy is claimed for the getter.
- PHP's undefined-index behaviour for a key missing in `fromArray` (a warning and null, or a TypeError for walletId and creationTime). `WellShaped` excludes it as a precondition.
- PHP null and other non-string values in the six untyped string fields (address, tag, private, public, wif, callbackUrl). They are modelled as strings only.
- PHP array keys of batch inputs. `foreach` visits the input in order and the result is a fresh list, so inputs are modelled as sequences.
- Persistence, transport and any decryption path. None of them is part of this model.
