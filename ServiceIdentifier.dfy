/**
 * The older string-keyed descriptor (ServiceIdentifier.java): a list of
 * functional layers, a provider and QoS strings, hashed into one key by
 * concatenating the SHA-1 hex digest of every layer and of the provider.
 */
module ServiceIdentifiers {
  import opened Failures

  /** Length of a SHA-1 digest written in hexadecimal. */
  const Sha1HexLength: nat := 40

  /** DigestUtils.sha1Hex is not part of this model: any function giving 40-character strings. */
  type Sha1Hex = f: string -> string | forall s :: |f(s)| == Sha1HexLength
    witness s => "0000000000000000000000000000000000000000"

  /** The digests of the layers, in order. */
  function ConcatHashes(layers: seq<string>, sha1Hex: Sha1Hex): string
  {
    if |layers| == 0 then ""
    else ConcatHashes(layers[..|layers| - 1], sha1Hex) + sha1Hex(layers[|layers| - 1])
  }

  /**
   * getHashedIdentifier: ServiceException when there is no layer; the layer
   * digests followed by the provider digest otherwise. A null provider makes
   * sha1Hex throw NullPointerException.
   */
  function HashedIdentifier(layers: seq<string>, provider: Option<string>, sha1Hex: Sha1Hex): Result<string>
  {
    if |layers| == 0 then Err(ServiceFailure("Not enough functional bits to construct data identifier"))
    else if provider.None? then Err(NullPointer)
    else Ok(ConcatHashes(layers, sha1Hex) + sha1Hex(provider.value))
  }

  /** A slice inside the left operand of a concatenation is a slice of that operand. */
  lemma SliceOfLeft(a: string, b: string, i: nat, j: nat)
    requires i <= j <= |a|
    ensures (a + b)[i..j] == a[i..j]
  {
  }

  /** Blocks before the last one end inside the earlier blocks. */
  lemma BlockEndBound(k: nat, n: nat)
    requires k < n
    ensures Sha1HexLength * (k + 1) <= Sha1HexLength * n
  {
  }

  /** Block k of the concatenation is the digest of layer k. */
  lemma {:induction false} ConcatHashesLayout(layers: seq<string>, sha1Hex: Sha1Hex)
    ensures |ConcatHashes(layers, sha1Hex)| == Sha1HexLength * |layers|
    ensures forall k :: 0 <= k < |layers| ==>
              ConcatHashes(layers, sha1Hex)[Sha1HexLength * k..Sha1HexLength * (k + 1)] == sha1Hex(layers[k])
  {
    if |layers| > 0 {
      var n := |layers| - 1;
      var init := layers[..n];
      ConcatHashesLayout(init, sha1Hex);
      var c := ConcatHashes(init, sha1Hex);
      var last := sha1Hex(layers[n]);
      assert ConcatHashes(layers, sha1Hex) == c + last;
      forall k | 0 <= k < |layers|
        ensures (c + last)[Sha1HexLength * k..Sha1HexLength * (k + 1)] == sha1Hex(layers[k])
      {
        if k < n {
          BlockEndBound(k, n);
          SliceOfLeft(c, last, Sha1HexLength * k, Sha1HexLength * (k + 1));
          assert layers[k] == init[k];
        } else {
          assert Sha1HexLength * k == |c|;
          assert (c + last)[|c|..|c| + |last|] == last;
        }
      }
    }
  }

  /**
   * The hashed identifier fails exactly without layers or provider; otherwise
   * it is |layers| + 1 digests long, block k is the digest of layer k (so the
   * first 40 characters are the first layer's digest) and the last block is
   * the provider's digest.
   */
  lemma HashedIdentifierLayout(layers: seq<string>, provider: Option<string>, sha1Hex: Sha1Hex)
    ensures HashedIdentifier(layers, provider, sha1Hex).Err? <==> |layers| == 0 || provider.None?
    ensures |layers| == 0 ==> HashedIdentifier(layers, provider, sha1Hex).error.ServiceFailure?
    ensures |layers| > 0 && provider.None? ==> HashedIdentifier(layers, provider, sha1Hex) == Err(NullPointer)
    ensures HashedIdentifier(layers, provider, sha1Hex).Ok? ==>
              var h := HashedIdentifier(layers, provider, sha1Hex).value;
              |h| == Sha1HexLength * (|layers| + 1) &&
              h[..Sha1HexLength] == sha1Hex(layers[0]) &&
              (forall k :: 0 <= k < |layers| ==>
                 h[Sha1HexLength * k..Sha1HexLength * (k + 1)] == sha1Hex(layers[k])) &&
              h[Sha1HexLength * |layers|..] == sha1Hex(provider.value)
  {
    if |layers| > 0 && provider.Some? {
      ConcatHashesLayout(layers, sha1Hex);
      var c := ConcatHashes(layers, sha1Hex);
      var h := c + sha1Hex(provider.value);
      assert h[..Sha1HexLength] == c[..Sha1HexLength];
      assert h[Sha1HexLength * |layers|..] == sha1Hex(provider.value);
      forall k | 0 <= k < |layers|
        ensures h[Sha1HexLength * k..Sha1HexLength * (k + 1)] == sha1Hex(layers[k])
      {
        assert h[Sha1HexLength * k..Sha1HexLength * (k + 1)] == c[Sha1HexLength * k..Sha1HexLength * (k + 1)];
      }
    }
  }

  /** The layer list and the provider are references that the setters may set to null (None). */
  class ServiceIdentifier {
    var layers: Option<seq<string>>
    var qos: seq<string>
    var provider: Option<string>

    /** A new identifier: an empty layer list, no QoS, a null provider. */
    constructor ()
      ensures layers == Some([]) && qos == [] && provider == None
    {
      layers := Some([]);
      qos := [];
      provider := None;
    }

    /** addQos: appends to the QoS list, and so cannot change the hashed identifier. */
    method AddQos(q: string)
      modifies this
      ensures qos == old(qos) + [q]
      ensures layers == old(layers) && provider == old(provider)
    {
      qos := qos + [q];
    }

    /** setLayers: stores the list as given, null included, without a size check. */
    method SetLayers(newLayers: Option<seq<string>>)
      modifies this
      ensures layers == newLayers
      ensures qos == old(qos) && provider == old(provider)
    {
      layers := newLayers;
    }

    /** setProvider: stores the provider as given, null included. */
    method SetProvider(newProvider: Option<string>)
      modifies this
      ensures provider == newProvider
      ensures layers == old(layers) && qos == old(qos)
    {
      provider := newProvider;
    }

    /**
     * getHashedIdentifier: a null layer list throws NullPointerException at
     * its size; otherwise fails without layers, then appends the digest of
     * every layer and finally of the provider; the QoS list plays no part.
     */
    method GetHashedIdentifier(sha1Hex: Sha1Hex) returns (r: Result<string>)
      ensures layers.None? ==> r == Err(NullPointer)
      ensures layers.Some? ==> r == HashedIdentifier(layers.value, provider, sha1Hex)
    {
      if layers.None? {
        return Err(NullPointer);
      }
      var list := layers.value;
      if |list| == 0 {
        return Err(ServiceFailure("Not enough functional bits to construct data identifier"));
      }
      var builder := "";
      for i := 0 to |list|
        invariant builder == ConcatHashes(list[..i], sha1Hex)
      {
        assert list[..i + 1][..i] == list[..i];
        builder := builder + sha1Hex(list[i]);
      }
      assert list[..|list|] == list;
      if provider.None? {
        return Err(NullPointer);
      }
      builder := builder + sha1Hex(provider.value);
      return Ok(builder);
    }
  }
}
