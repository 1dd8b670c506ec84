/**
 The KEK engine: keys held in memory by identifier, split once and destroyed, and reconstructed
 from custodians' shares only to be sealed to recipients.

 The fingerprint hash and the share checksum are parameters; a sealed box is ideal, a plaintext
 addressed to a public key.
 */
module KekEngines {
  import opened Bytes
  import opened Wrappers
  import opened Gf256
  import opened Shamir

  const KEY_BYTES := 32
  const PUBLIC_KEY_BYTES := 32

  datatype EngineError =
    | ProviderClosed | KekAlreadyExists | KekNotHeld | ShareInvalid | FingerprintMismatch
    | SplitFailed(reason: Shamir.Error) | BadPublicKey

  datatype Recipient = Recipient(id: string, publicKey: seq<Byte>)
  datatype Sealed = Sealed(publicKey: seq<Byte>, plaintext: seq<Byte>)
  datatype EncryptedShare = EncryptedShare(custodianId: string, x: nat, box: Sealed)
  datatype WrappedKek = WrappedKek(recipientId: string, box: Sealed, fingerprint: seq<Byte>)

  function Seal(plaintext: seq<Byte>, publicKey: seq<Byte>): Result<Sealed, EngineError> {
    if |publicKey| != PUBLIC_KEY_BYTES then Err(BadPublicKey) else Ok(Sealed(publicKey, plaintext))
  }

  predicate GoodKeys(rs: seq<Recipient>) {
    forall i | 0 <= i < |rs| :: |rs[i].publicKey| == PUBLIC_KEY_BYTES
  }

  /** The sealed shares of a split of `kek`, one per custodian in order. */
  function SealedShares(kek: seq<Byte>, t: nat, custodians: seq<Recipient>, setId: seq<Byte>, fills: Fills,
      check: Checksum)
    : (r: seq<EncryptedShare>)
    requires |kek| == KEY_BYTES && |setId| == 8 && SplitError(kek, t, |custodians|).None?
    ensures |r| == |custodians|
  {
    var shares := SharesOf(kek, t, |custodians|, setId, fills);
    seq(|custodians|, i requires 0 <= i < |custodians| =>
      EncryptedShare(custodians[i].id, i + 1,
                     Sealed(custodians[i].publicKey, Serialized(shares[i], check).value)))
  }

  function ParseAll(blobs: seq<seq<Byte>>, check: Checksum): (r: Option<seq<ShamirShare>>)
    ensures r.Some? ==> |r.value| == |blobs|
    ensures r.Some? <==> forall i | 0 <= i < |blobs| :: Parse(blobs[i], check).Ok?
    ensures r.Some? ==> forall i | 0 <= i < |blobs| :: r.value[i] == Parse(blobs[i], check).value
  {
    hide Parse;
    if forall i | 0 <= i < |blobs| :: Parse(blobs[i], check).Ok? then
      Some(seq(|blobs|, i requires 0 <= i < |blobs| && Parse(blobs[i], check).Ok? => Parse(blobs[i], check).value))
    else None
  }

  /** The key the share blobs reconstruct. */
  ghost function Reconstructed(blobs: seq<seq<Byte>>, check: Checksum): Result<seq<Byte>, EngineError> {
    var shares := ParseAll(blobs, check);
    if shares.None? || CombineError(shares.value).Some? then Err(ShareInvalid)
    else
      CombineErrorMeaning(shares.value);
      if |shares.value[0].y| != KEY_BYTES then Err(ShareInvalid) else Ok(Combined(shares.value))
  }

  /** Every blob is a share, and together they are at least a threshold of one split of a key. */
  ghost predicate Combines(blobs: seq<seq<Byte>>, check: Checksum) {
    (forall i | 0 <= i < |blobs| :: Parse(blobs[i], check).Ok?)
    && var shares := Parsed(blobs, check);
    Combinable(shares) && |shares[0].y| == KEY_BYTES
  }

  function Parsed(blobs: seq<seq<Byte>>, check: Checksum): (shares: seq<ShamirShare>)
    requires forall i | 0 <= i < |blobs| :: Parse(blobs[i], check).Ok?
    ensures |shares| == |blobs| && forall i | 0 <= i < |blobs| :: shares[i] == Parse(blobs[i], check).value
  {
    ParseAll(blobs, check).value
  }

  ghost function KeyFrom(blobs: seq<seq<Byte>>, check: Checksum): (kek: seq<Byte>)
    requires Combines(blobs, check)
    ensures |kek| == KEY_BYTES
  {
    Combined(Parsed(blobs, check))
  }

  lemma CombinesMeaning(blobs: seq<seq<Byte>>, check: Checksum)
    ensures Reconstructed(blobs, check) == if Combines(blobs, check) then Ok(KeyFrom(blobs, check))
      else Err(ShareInvalid)
  {
    hide Parse, CombineError, Combinable, Combined;
    var shares := ParseAll(blobs, check);
    if shares.Some? {
      CombineErrorMeaning(shares.value);
    }
  }

  function WrapAll(kek: seq<Byte>, fingerprint: seq<Byte>, recipients: seq<Recipient>): (w: seq<WrappedKek>)
    ensures |w| == |recipients|
  {
    seq(|recipients|, i requires 0 <= i < |recipients| =>
      WrappedKek(recipients[i].id, Sealed(recipients[i].publicKey, kek), fingerprint))
  }

  ghost function Released(
    blobs: seq<seq<Byte>>, recipients: seq<Recipient>, expected: seq<Byte>, check: Checksum, fp: seq<Byte> -> seq<Byte>)
    : Result<seq<WrappedKek>, EngineError>
  {
    var kek := Reconstructed(blobs, check);
    if kek.Err? then Err(kek.error)
    else if fp(kek.value) != expected then Err(FingerprintMismatch)
    else if !GoodKeys(recipients) then Err(BadPublicKey)
    else Ok(WrapAll(kek.value, expected, recipients))
  }

  class KekEngine {
    var keks: map<string, seq<Byte>>
    var closed: bool
    const gf: Tables
    const check: Checksum
    const fp: seq<Byte> -> seq<Byte>

    ghost predicate Valid()
      reads this
    {
      && gf.Valid() && Sixteen(check)
      && (forall k | k in keks :: |keks[k]| == KEY_BYTES)
      && (closed ==> keks == map[])
    }

    constructor (gf: Tables, check: Checksum, fp: seq<Byte> -> seq<Byte>)
      requires gf.Valid() && Sixteen(check)
      ensures Valid() && keks == map[] && !closed
      ensures this.check == check && this.fp == fp
    {
      this.gf, this.check, this.fp := gf, check, fp;
      keks, closed := map[], false;
    }

    /** `fill` is what the random source writes into the new key's buffer. */
    method Generate(kekId: string, fill: seq<Byte>) returns (r: Result<seq<Byte>, EngineError>)
      requires Valid() && |fill| == KEY_BYTES
      modifies this`keks
      ensures Valid()
      ensures closed ==> r == Err(ProviderClosed) && keks == old(keks)
      ensures !closed && kekId in old(keks) ==> r == Err(KekAlreadyExists) && keks == old(keks)
      ensures !closed && kekId !in old(keks) ==> r == Ok(fp(fill)) && keks == old(keks)[kekId := fill]
    {
      if closed { return Err(ProviderClosed); }
      if kekId in keks { return Err(KekAlreadyExists); }
      keks := keks[kekId := fill];
      r := Ok(fp(fill));
    }

    method Import(kekId: string, raw: seq<Byte>) returns (r: Result<seq<Byte>, EngineError>)
      requires Valid()
      modifies this`keks
      ensures Valid()
      ensures closed ==> r == Err(ProviderClosed)
      ensures !closed && kekId in old(keks) ==> r == Err(KekAlreadyExists)
      ensures !closed && kekId !in old(keks) && |raw| != KEY_BYTES ==> r == Err(ShareInvalid)
      ensures !closed && kekId !in old(keks) && |raw| == KEY_BYTES ==> r == Ok(fp(raw))
      ensures keks == if r.Ok? then old(keks)[kekId := raw] else old(keks)
    {
      if closed { return Err(ProviderClosed); }
      if kekId in keks { return Err(KekAlreadyExists); }
      if |raw| != KEY_BYTES { return Err(ShareInvalid); }
      keks := keks[kekId := raw];
      r := Ok(fp(raw));
    }

    method Destroy(kekId: string)
      requires Valid()
      modifies this`keks
      ensures Valid() && keks == old(keks) - {kekId}
    {
      if kekId in keks {
        keks := keks - {kekId};
      }
    }

    /** Serialises and seals share i to custodian i, stopping at the first bad public key. */
    method SealAll(kek: seq<Byte>, t: nat, custodians: seq<Recipient>, setId: seq<Byte>, fills: Fills,
        shares: seq<ShamirShare>)
      returns (r: Result<seq<EncryptedShare>, EngineError>)
      requires Valid() && |kek| == KEY_BYTES && |setId| == 8 && SplitError(kek, t, |custodians|).None?
      requires shares == SharesOf(kek, t, |custodians|, setId, fills)
      ensures r == if !GoodKeys(custodians) then Err(BadPublicKey)
                   else Ok(SealedShares(kek, t, custodians, setId, fills, check))
    {
      hide SharesOf, Serialized, Parse, HasLayout;
      ghost var sealed := SealedShares(kek, t, custodians, setId, fills, check);
      var out: seq<EncryptedShare> := [];
      var i := 0;
      while i < |custodians|
        invariant 0 <= i <= |custodians| && |out| == i
        invariant forall k | 0 <= k < i :: |custodians[k].publicKey| == PUBLIC_KEY_BYTES
        invariant out == sealed[..i]
      {
        SplitSharesSerialize(kek, t, |custodians|, setId, fills, i, check);
        var blob := Serialize(shares[i], check);
        var box := Seal(blob.value, custodians[i].publicKey);
        if box.Err? { return Err(box.error); }
        out := out + [EncryptedShare(custodians[i].id, i + 1, box.value)];
        i := i + 1;
      }
      assert sealed[..i] == sealed;
      r := Ok(out);
    }

    /** Splits the key, seals each share to its custodian and forgets the key.  Only the check that
        there are enough custodians happens before the key is committed to destruction. */
    method SplitAndDestroy(kekId: string, t: int, custodians: seq<Recipient>, setId: seq<Byte>, fills: Fills)
      returns (r: Result<seq<EncryptedShare>, EngineError>)
      requires Valid() && |setId| == 8
      modifies this`keks
      ensures Valid()
      ensures closed ==> r == Err(ProviderClosed) && keks == old(keks)
      ensures !closed && kekId !in old(keks) ==> r == Err(KekNotHeld) && keks == old(keks)
      ensures kekId in old(keks) && |custodians| < t ==> r == Err(ShareInvalid) && keks == old(keks)
      ensures kekId in old(keks) && |custodians| >= t ==>
        && keks == old(keks) - {kekId}
        && (var e := SplitError(old(keks)[kekId], t, |custodians|);
            r == if e.Some? then Err(SplitFailed(e.value))
                 else if !GoodKeys(custodians) then Err(BadPublicKey)
                 else Ok(SealedShares(old(keks)[kekId], t, custodians, setId, fills, check)))
      ensures r.Ok? ==> kekId in old(keks) && AddressedTo(r.value, custodians)
      ensures r.Ok? ==> AreShares(r.value, old(keks)[kekId], t, setId, fills, check)
    {
      hide SharesOf, SealedShares, GoodKeys;
      if closed { return Err(ProviderClosed); }
      if kekId !in keks { return Err(KekNotHeld); }
      var kek := keks[kekId];
      if |custodians| < t { return Err(ShareInvalid); }
      var split := Split(gf, kek, t, |custodians|, setId, fills);
      if split.Err? {
        r := Err(SplitFailed(split.error));
      } else {
        r := SealAll(kek, t, custodians, setId, fills, split.value);
      }
      Destroy(kekId);
      if r.Ok? {
        SharesAreAddressed(kek, t, custodians, setId, fills, check);
      }
    }

    /** Reconstruct, verify the fingerprint, seal to every recipient.  The key map is never touched. */
    method ReconstructWrapRelease(blobs: seq<seq<Byte>>, recipients: seq<Recipient>, expected: seq<Byte>)
      returns (r: Result<seq<WrappedKek>, EngineError>)
      requires Valid()
      ensures r == if closed then Err(ProviderClosed) else Released(blobs, recipients, expected, check, fp)
      ensures r == Err(ProviderClosed) <==> closed
      ensures r == Err(ShareInvalid) <==> !closed && !Combines(blobs, check)
      ensures r == Err(FingerprintMismatch) <==>
        !closed && Combines(blobs, check) && fp(KeyFrom(blobs, check)) != expected
      ensures r == Err(BadPublicKey) <==>
        !closed && Combines(blobs, check) && fp(KeyFrom(blobs, check)) == expected && !GoodKeys(recipients)
      ensures r.Ok? ==>
        !closed && Combines(blobs, check) && fp(KeyFrom(blobs, check)) == expected && GoodKeys(recipients)
      ensures r.Ok? ==> |r.value| == |recipients| && forall i | 0 <= i < |recipients| ::
        && r.value[i].recipientId == recipients[i].id && r.value[i].box.publicKey == recipients[i].publicKey
        && r.value[i].box.plaintext == KeyFrom(blobs, check) && r.value[i].fingerprint == fp(KeyFrom(blobs, check))
    {
      hide Parse, Combined, CombineError, Combinable;
      CombinesMeaning(blobs, check);
      if closed { return Err(ProviderClosed); }
      var shares: seq<ShamirShare> := [];
      var i := 0;
      while i < |blobs|
        invariant 0 <= i <= |blobs| && |shares| == i
        invariant forall k | 0 <= k < i :: Parse(blobs[k], check).Ok? && shares[k] == Parse(blobs[k], check).value
      {
        var s := Parse(blobs[i], check);
        if s.Err? { return Err(ShareInvalid); }
        shares := shares + [s.value];
        i := i + 1;
      }
      assert ParseAll(blobs, check).Some?;
      assert ParseAll(blobs, check).value == shares;
      var kek := new Byte[KEY_BYTES];
      var combined := Combine(gf, shares, kek);
      if combined.Err? { return Err(ShareInvalid); }
      if fp(kek[..]) != expected { return Err(FingerprintMismatch); }
      var wrapped: seq<WrappedKek> := [];
      i := 0;
      while i < |recipients|
        invariant 0 <= i <= |recipients| && |wrapped| == i
        invariant forall k | 0 <= k < i ::
          |recipients[k].publicKey| == PUBLIC_KEY_BYTES && wrapped[k] == WrapAll(kek[..], expected, recipients)[k]
      {
        var box := Seal(kek[..], recipients[i].publicKey);
        if box.Err? { return Err(BadPublicKey); }
        wrapped := wrapped + [WrappedKek(recipients[i].id, box.value, fp(kek[..]))];
        i := i + 1;
      }
      assert wrapped == WrapAll(kek[..], expected, recipients);
      r := Ok(wrapped);
    }

    method Close()
      requires Valid()
      modifies this
      ensures Valid() && closed && keks == map[]
    {
      while keks.Keys != {}
        invariant Valid() && closed == old(closed)
        decreases |keks.Keys|
      {
        var id :| id in keks.Keys;
        ghost var before := keks.Keys;
        Destroy(id);
        assert keks.Keys == before - {id};
      }
      closed := true;
    }
  }

  /** Share i is for custodian i alone. */
  ghost predicate AddressedTo(sealed: seq<EncryptedShare>, custodians: seq<Recipient>) {
    |sealed| == |custodians| && forall i | 0 <= i < |sealed| ::
      && sealed[i].custodianId == custodians[i].id && sealed[i].x == i + 1
      && sealed[i].box.publicKey == custodians[i].publicKey
  }

  /** What each box holds parses to the share of the key with that index. */
  ghost predicate AreShares(sealed: seq<EncryptedShare>, kek: seq<Byte>, t: int, setId: seq<Byte>, fills: Fills,
      check: Checksum)
  {
    2 <= t <= |sealed| <= 255 && forall i | 0 <= i < |sealed| ::
      var p := Parse(sealed[i].box.plaintext, check);
      p == Ok(ShamirShare(setId, i + 1, t, ShareBytes(kek, fills, t, i + 1)))
  }

  lemma SharesAreAddressed(kek: seq<Byte>, t: nat, custodians: seq<Recipient>, setId: seq<Byte>, fills: Fills,
      check: Checksum)
    requires |kek| == KEY_BYTES && |setId| == 8 && SplitError(kek, t, |custodians|).None? && Sixteen(check)
    ensures var sealed := SealedShares(kek, t, custodians, setId, fills, check);
      AddressedTo(sealed, custodians) && AreShares(sealed, kek, t, setId, fills, check)
  {
    hide Parse, Serialized, ShareBytes;
    var n := |custodians|;
    forall i | 0 <= i < n
      ensures var p := Parse(SealedShares(kek, t, custodians, setId, fills, check)[i].box.plaintext, check);
        p == Ok(ShamirShare(setId, i + 1, t, ShareBytes(kek, fills, t, i + 1)))
    {
      SplitSharesSerialize(kek, t, n, setId, fills, i, check);
    }
  }

  lemma SplitSharesSerialize(kek: seq<Byte>, t: nat, n: nat, setId: seq<Byte>, fills: Fills, i: nat, check: Checksum)
    requires |kek| == KEY_BYTES && |setId| == 8 && SplitError(kek, t, n).None? && i < n && Sixteen(check)
    ensures var s := SharesOf(kek, t, n, setId, fills)[i];
      Serialized(s, check).Ok? && Parse(Serialized(s, check).value, check) == Ok(s)
  {
    hide Header, Parse;
    var s := SharesOf(kek, t, n, setId, fills)[i];
    assert |s.y| == |kek|;
    ParseSerialized(s, check);
  }

  /** What the custodians at the given positions open. */
  function Opened(shares: seq<EncryptedShare>, picks: seq<nat>): (blobs: seq<seq<Byte>>)
    requires forall k | 0 <= k < |picks| :: picks[k] < |shares|
    ensures |blobs| == |picks|
  {
    seq(|picks|, k requires 0 <= k < |picks| => shares[picks[k]].box.plaintext)
  }

  /** Any threshold of the sealed shares, opened and submitted in any order, passes the fingerprint
      check and wraps exactly the key that was split. */
  lemma SplitThenRelease(
    kek: seq<Byte>, t: nat, custodians: seq<Recipient>, setId: seq<Byte>, fills: Fills,
    picks: seq<nat>, recipients: seq<Recipient>, check: Checksum, fp: seq<Byte> -> seq<Byte>)
    requires |kek| == KEY_BYTES && |setId| == 8 && Sixteen(check)
    requires SplitError(kek, t, |custodians|).None? && GoodKeys(recipients)
    requires forall k | 0 <= k < |picks| :: picks[k] < |custodians|
    requires forall i, j | 0 <= i < j < |picks| :: picks[i] != picks[j]
    requires |picks| >= t
    ensures var r := Released(
        Opened(SealedShares(kek, t, custodians, setId, fills, check), picks), recipients, fp(kek), check, fp);
      && r.Ok? && |r.value| == |recipients|
      && forall i | 0 <= i < |recipients| ::
           && r.value[i].recipientId == recipients[i].id && r.value[i].box.publicKey == recipients[i].publicKey
           && r.value[i].box.plaintext == kek && r.value[i].fingerprint == fp(kek)
  {
    hide SharesOf, Serialized, Parse, Combined, CombineError, Combinable;
    var n := |custodians|;
    var all := SharesOf(kek, t, n, setId, fills);
    var blobs := Opened(SealedShares(kek, t, custodians, setId, fills, check), picks);
    forall k | 0 <= k < |picks|
      ensures Serialized(all[picks[k]], check).Ok?
      ensures blobs[k] == Serialized(all[picks[k]], check).value && Parse(blobs[k], check) == Ok(all[picks[k]])
    {
      SplitSharesSerialize(kek, t, n, setId, fills, picks[k], check);
    }
    assert ParseAll(blobs, check).value == Pick(all, picks);
    SplitThenCombine(kek, t, n, setId, fills, picks);
    PickedLength(kek, t, n, setId, fills, picks);
  }

  lemma PickedLength(kek: seq<Byte>, t: nat, n: nat, setId: seq<Byte>, fills: Fills, picks: seq<nat>)
    requires 1 <= t && n <= 255 && picks != [] && forall k | 0 <= k < |picks| :: picks[k] < n
    ensures |Pick(SharesOf(kek, t, n, setId, fills), picks)[0].y| == |kek|
  {}
}
