/** The Address entity: a frozen record of eight fields, its array form, the
    one-way transform into an EncryptedAddress, and identity-only equality. */
module AddressDomain {
  import opened Values

  /** The eight keys of an Address's array form. */
  const AddressKeys: set<string> :=
    {"address", "walletId", "creationTime", "tag", "private", "public", "wif", "callbackUrl"}

  /** A blockchain address and its key material. The datatype constructor is
      the PHP constructor and the field names are the getters. */
  datatype Address = Address(
    address: string,
    walletId: WalletId,
    creationTime: DateTime,
    tag: string,
    private: string,
    public: string,
    wif: string,
    callbackUrl: string)

  /** The same shape as Address, but `private` and `wif` hold ciphertext.
      A distinct type: nothing turns it back into an Address. */
  datatype EncryptedAddress = EncryptedAddress(
    address: string,
    walletId: WalletId,
    creationTime: DateTime,
    tag: string,
    private: string,
    public: string,
    wif: string,
    callbackUrl: string)

  /** The array form of an entity: key to stored value. */
  type EntityArray = map<string, Entry>

  /** The constructor keeps every argument as given; the creation time is a
      copy equal in value to the argument, and each getter hands back the
      field it names. */
  lemma ConstructorStoresArguments(address: string, walletId: WalletId, creationTime: DateTime,
                                   tag: string, private: string, public: string, wif: string,
                                   callbackUrl: string)
    ensures var a := Address(address, walletId, creationTime, tag, private, public, wif, callbackUrl);
      && a.address == address && a.walletId == walletId && a.creationTime == creationTime
      && a.tag == tag && a.private == private && a.public == public && a.wif == wif
      && a.callbackUrl == callbackUrl
  {
  }

  /** toArray: every field under its own key; walletId in WalletId's array form. */
  function ToArray(a: Address): (m: EntityArray)
    ensures m.Keys == AddressKeys
  {
    map[
      "address" := Str(a.address),
      "walletId" := WalletIdArray(a.walletId),
      "creationTime" := Time(a.creationTime),
      "tag" := Str(a.tag),
      "private" := Str(a.private),
      "public" := Str(a.public),
      "wif" := Str(a.wif),
      "callbackUrl" := Str(a.callbackUrl)]
  }

  /** Each entry of toArray's result holds the matching field; walletId is
      the only one stored in another form. */
  lemma ToArrayFieldByField(a: Address)
    ensures var m := ToArray(a);
      && |m| == 8
      && m["address"] == Str(a.address)
      && m["walletId"] == WalletIdArray(a.walletId)
      && m["creationTime"] == Time(a.creationTime)
      && m["tag"] == Str(a.tag)
      && m["private"] == Str(a.private)
      && m["public"] == Str(a.public)
      && m["wif"] == Str(a.wif)
      && m["callbackUrl"] == Str(a.callbackUrl)
  {
  }

  /** What fromArray relies on and never checks: all eight keys are present
      and the untyped string parameters receive strings. */
  predicate WellShaped(m: EntityArray)
  {
    && "address" in m && m["address"].Str?
    && "walletId" in m
    && "creationTime" in m
    && "tag" in m && m["tag"].Str?
    && "private" in m && m["private"].Str?
    && "public" in m && m["public"].Str?
    && "wif" in m && m["wif"].Str?
    && "callbackUrl" in m && m["callbackUrl"].Str?
  }

  /** fromArray: hands the eight entries to the constructor. The typed
      parameters reject a walletId that is not a WalletId object and a
      creationTime that is not a \DateTime, in argument order. */
  function FromArray(m: EntityArray): (r: Result<Address>)
    requires WellShaped(m)
    ensures r.Ok? <==> m["walletId"].WalletIdObject? && m["creationTime"].Time?
    ensures r.Err? ==> r.error == TypeError(if m["walletId"].WalletIdObject? then "creationTime" else "walletId")
    ensures r.Ok? ==> ToArray(r.value)["walletId"] == WalletIdArray(m["walletId"].w)
    ensures r.Ok? ==> forall k :: k in AddressKeys && k != "walletId" ==> ToArray(r.value)[k] == m[k]
  {
    if !m["walletId"].WalletIdObject? then
      Err(TypeError("walletId"))
    else if !m["creationTime"].Time? then
      Err(TypeError("creationTime"))
    else
      Ok(Address(m["address"].s, m["walletId"].w, m["creationTime"].t, m["tag"].s,
                 m["private"].s, m["public"].s, m["wif"].s, m["callbackUrl"].s))
  }

  /** The decode step fromArray leaves to its caller: the walletId entry, if
      it is in WalletId's array form, is turned back into a WalletId object.
      Every other entry is left as it is. */
  function DecodeWalletId(m: EntityArray): (d: EntityArray)
    ensures d.Keys == m.Keys
    ensures forall k :: k in m && k != "walletId" ==> d[k] == m[k]
    ensures "walletId" in m && m["walletId"].WalletIdArray? ==> d["walletId"] == WalletIdObject(m["walletId"].arrayOf)
    ensures !("walletId" in m && m["walletId"].WalletIdArray?) ==> d == m
    ensures WellShaped(m) ==> WellShaped(d)
  {
    if "walletId" in m && m["walletId"].WalletIdArray? then
      m["walletId" := WalletIdObject(m["walletId"].arrayOf)]
    else
      m
  }

  /** As written, fromArray does not accept what toArray produces: the array
      form of walletId reaches a parameter typed WalletId. */
  lemma FromArrayRejectsToArray(a: Address)
    ensures WellShaped(ToArray(a))
    ensures FromArray(ToArray(a)) == Err(TypeError("walletId"))
  {
  }

  /** Round trip from an entity: once walletId is decoded, fromArray gives
      back the very same Address, field by field. */
  lemma RoundTripFromEntity(a: Address)
    ensures WellShaped(DecodeWalletId(ToArray(a)))
    ensures FromArray(DecodeWalletId(ToArray(a))) == Ok(a)
  {
  }

  /** Round trip from an array: an eight-key array that fromArray accepts is
      reproduced by toArray followed by the decode step. */
  lemma RoundTripFromArray(m: EntityArray)
    requires WellShaped(m) && m.Keys == AddressKeys
    requires FromArray(m).Ok?
    ensures DecodeWalletId(ToArray(FromArray(m).value)) == m
  {
  }

  /** fromArray does no key checking: a key outside the eight is ignored. */
  lemma FromArrayIgnoresExtraKeys(m: EntityArray, k: string, e: Entry)
    requires WellShaped(m) && k !in AddressKeys
    ensures WellShaped(m[k := e])
    ensures FromArray(m[k := e]) == FromArray(m)
  {
  }

  /** encryptUsing: a new EncryptedAddress whose private and wif are the
      encryptor's output; the other six fields are carried over verbatim.
      The Address it is called on is a value and stays as it was. */
  function EncryptUsing(a: Address, encrypt: string -> string): (e: EncryptedAddress)
    ensures e.private == encrypt(a.private) && e.wif == encrypt(a.wif)
    ensures Address(e.address, e.walletId, e.creationTime, e.tag,
                    a.private, e.public, a.wif, e.callbackUrl) == a
  {
    EncryptedAddress(a.address, a.walletId, a.creationTime, a.tag,
                     encrypt(a.private), a.public, encrypt(a.wif), a.callbackUrl)
  }

  /** Exactly the two secret fields go through the encryptor. */
  lemma EncryptUsingChangesOnlySecrets(a: Address, encrypt: string -> string)
    ensures var e := EncryptUsing(a, encrypt);
      && e.private == encrypt(a.private) && e.wif == encrypt(a.wif)
      && e.address == a.address && e.walletId == a.walletId
      && e.creationTime == a.creationTime && e.tag == a.tag
      && e.public == a.public && e.callbackUrl == a.callbackUrl
  {
  }

  /** Nothing but the two ciphertexts separates the encrypted record from the
      plain one: a decryptor that undoes the encryptor on those two values
      rebuilds the Address exactly. */
  lemma EncryptUsingLosesNothing(a: Address, encrypt: string -> string, decrypt: string -> string)
    requires decrypt(encrypt(a.private)) == a.private && decrypt(encrypt(a.wif)) == a.wif
    ensures var e := EncryptUsing(a, encrypt);
      Address(e.address, e.walletId, e.creationTime, e.tag,
              decrypt(e.private), e.public, decrypt(e.wif), e.callbackUrl) == a
  {
  }

  /** With an injective encryptor, distinct addresses stay distinct. */
  lemma EncryptUsingInjective(a: Address, b: Address, encrypt: string -> string)
    requires forall s, t :: encrypt(s) == encrypt(t) ==> s == t
    requires EncryptUsing(a, encrypt) == EncryptUsing(b, encrypt)
    ensures a == b
  {
  }

  /** The encryptor that appends "_ENC" changes private and wif only. */
  lemma EncryptUsingExample(walletId: WalletId, creationTime: DateTime)
    ensures EncryptUsing(Address("addr", walletId, creationTime, "tag", "p", "pub", "w", "url"), s => s + "_ENC")
         == EncryptedAddress("addr", walletId, creationTime, "tag", "p_ENC", "pub", "w_ENC", "url")
  {
  }

  /** equals: two addresses are the same entity when their address strings
      are identical; the other seven fields are not looked at. */
  predicate Equals(a: Address, other: Address)
    ensures Equals(a, other) <==> ToArray(a)["address"] == ToArray(other)["address"]
    ensures a == other ==> Equals(a, other)
  {
    a.address == other.address
  }

  /** equals is an equivalence relation. */
  lemma EqualsIsEquivalence(a: Address, b: Address, c: Address)
    ensures Equals(a, a)
    ensures Equals(a, b) ==> Equals(b, a)
    ensures Equals(a, b) && Equals(b, c) ==> Equals(a, c)
  {
  }

  /** equals holds exactly when the address strings agree, however the
      walletId, creation time, tag, keys and callback URL differ. */
  lemma EqualsIgnoresOtherFields(a: Address, walletId: WalletId, creationTime: DateTime, tag: string,
                                 private: string, public: string, wif: string, callbackUrl: string,
                                 address: string)
    ensures Equals(a, Address(address, walletId, creationTime, tag, private, public, wif, callbackUrl))
            <==> a.address == address
  {
  }

  /** equals is strictly weaker than equality of the records: two different
      key pairs under one address compare equal. */
  lemma EqualsIsNotRecordEquality(walletId: WalletId, creationTime: DateTime)
    ensures var a := Address("addr", walletId, creationTime, "", "p1", "pub1", "w1", "");
            var b := Address("addr", walletId, creationTime, "", "p2", "pub2", "w2", "");
            Equals(a, b) && a != b
  {
  }
}
