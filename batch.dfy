/** The three static batch helpers of Address. Each builds its result by
    appending inside a loop; each is proved against a specification function
    that maps the single-entity operation over the input in order. */
module AddressBatch {
  import opened Values
  import opened AddressDomain

  /** toArray of every address, in input order. */
  function ToArrays(xs: seq<Address>): (ms: seq<EntityArray>)
    ensures |ms| == |xs|
    ensures forall i :: 0 <= i < |xs| ==> ms[i] == ToArray(xs[i])
  {
    if xs == [] then [] else [ToArray(xs[0])] + ToArrays(xs[1..])
  }

  /** The address string of every address, in input order. */
  function AddressesOf(xs: seq<Address>): (r: seq<string>)
    ensures |r| == |xs|
    ensures forall i :: 0 <= i < |xs| ==> r[i] == xs[i].address
  {
    if xs == [] then [] else [xs[0].address] + AddressesOf(xs[1..])
  }

  predicate AllWellShaped(ms: seq<EntityArray>)
  {
    forall i :: 0 <= i < |ms| ==> WellShaped(ms[i])
  }

  /** fromArray of every array, in input order; the first array fromArray
      rejects ends the batch with that array's error. */
  function FromArrays(ms: seq<EntityArray>): (r: Result<seq<Address>>)
    requires AllWellShaped(ms)
    ensures r.Ok? <==> forall i :: 0 <= i < |ms| ==> FromArray(ms[i]).Ok?
    ensures r.Ok? ==> |r.value| == |ms| && forall i :: 0 <= i < |ms| ==> FromArray(ms[i]) == Ok(r.value[i])
    ensures r.Err? ==> exists i :: 0 <= i < |ms| && FromArray(ms[i]) == Err(r.error)
                                   && forall j :: 0 <= j < i ==> FromArray(ms[j]).Ok?
  {
    if ms == [] then Ok([])
    else
      match FromArray(ms[0])
      case Err(e) => Err(e)
      case Ok(a) =>
        match FromArrays(ms[1..])
        case Err(e) =>
          Err(e)
        case Ok(rest) =>
          Ok([a] + rest)
  }

  /** ObjectArrayToArray: appends toArray of each address to the result. */
  method ObjectArrayToArray(addresses: seq<Address>) returns (result: seq<EntityArray>)
    ensures |result| == |addresses|
    ensures forall i :: 0 <= i < |addresses| ==> result[i] == ToArray(addresses[i])
    ensures result == ToArrays(addresses)
  {
    result := [];
    for i := 0 to |addresses|
      invariant |result| == i
      invariant forall k :: 0 <= k < i ==> result[k] == ToArray(addresses[k])
    {
      result := result + [ToArray(addresses[i])];
    }
  }

  /** ObjectArrayToAddressList: the empty input returns early; otherwise the
      address of each entity is appended in turn. Both paths give the
      addresses in input order. */
  method ObjectArrayToAddressList(addresses: seq<Address>) returns (addressesList: seq<string>)
    ensures |addressesList| == |addresses|
    ensures forall i :: 0 <= i < |addresses| ==> addressesList[i] == addresses[i].address
    ensures addressesList == AddressesOf(addresses)
  {
    addressesList := [];
    if |addresses| == 0 {
      return;
    }
    for i := 0 to |addresses|
      invariant |addressesList| == i
      invariant forall k :: 0 <= k < i ==> addressesList[k] == addresses[k].address
    {
      addressesList := addressesList + [addresses[i].address];
    }
  }

  /** ArrayToObjectArray: routes every array through fromArray and appends
      the entity; the exception of the first rejected array escapes, so no
      partial result is returned. */
  method ArrayToObjectArray(addresses: seq<EntityArray>) returns (result: Result<seq<Address>>)
    requires AllWellShaped(addresses)
    ensures result == FromArrays(addresses)
  {
    var built: seq<Address> := [];
    for i := 0 to |addresses|
      invariant |built| == i
      invariant forall k :: 0 <= k < i ==> FromArray(addresses[k]) == Ok(built[k])
    {
      var entity := FromArray(addresses[i]);
      if entity.Err? {
        FirstRejected(addresses, i);
        return Err(entity.error);
      }
      built := built + [entity.value];
    }
    assert FromArrays(addresses).value == built;
    result := Ok(built);
  }

  /** When every array before the i-th is accepted and the i-th is not, the
      batch fails with the i-th array's error. */
  lemma FirstRejected(ms: seq<EntityArray>, i: nat)
    requires AllWellShaped(ms) && i < |ms|
    requires forall j :: 0 <= j < i ==> FromArray(ms[j]).Ok?
    requires FromArray(ms[i]).Err?
    ensures FromArrays(ms) == Err(FromArray(ms[i]).error)
  {
  }

  /** The decode step applied to every array of a batch. */
  function DecodeWalletIds(ms: seq<EntityArray>): (ds: seq<EntityArray>)
    ensures |ds| == |ms|
    ensures forall i :: 0 <= i < |ms| ==> ds[i] == DecodeWalletId(ms[i])
  {
    if ms == [] then [] else [DecodeWalletId(ms[0])] + DecodeWalletIds(ms[1..])
  }

  /** Batch round trip: with walletId decoded, the arrays of a sequence of
      addresses come back as the same addresses in the same order. */
  lemma {:induction false} BatchRoundTrip(xs: seq<Address>)
    ensures AllWellShaped(DecodeWalletIds(ToArrays(xs)))
    ensures FromArrays(DecodeWalletIds(ToArrays(xs))) == Ok(xs)
  {
    var ds := DecodeWalletIds(ToArrays(xs));
    forall i | 0 <= i < |xs|
      ensures WellShaped(ds[i]) && FromArray(ds[i]) == Ok(xs[i])
    {
      RoundTripFromEntity(xs[i]);
    }
    assert FromArrays(ds).value == xs;
  }

  /** As written, the batch round trip fails on the first address: its
      walletId arrives in array form. */
  lemma {:induction false} BatchRoundTripAsWritten(xs: seq<Address>)
    requires xs != []
    ensures AllWellShaped(ToArrays(xs))
    ensures FromArrays(ToArrays(xs)) == Err(TypeError("walletId"))
  {
    var ms := ToArrays(xs);
    forall i | 0 <= i < |xs|
      ensures WellShaped(ms[i]) && FromArray(ms[i]) == Err(TypeError("walletId"))
    {
      FromArrayRejectsToArray(xs[i]);
    }
  }

  /** The address list is the address projection of the array form.
      Not an induction: the attribute only keeps the solver from trying one. */
  lemma {:induction false} AddressListMatchesArrays(xs: seq<Address>)
    ensures forall i :: 0 <= i < |xs| ==> ToArrays(xs)[i]["address"] == Str(AddressesOf(xs)[i])
  {
  }

  /** Empty input gives empty output for all three helpers. */
  lemma EmptyBatches()
    ensures ToArrays([]) == [] && AddressesOf([]) == [] && FromArrays([]) == Ok([])
  {
  }
}
