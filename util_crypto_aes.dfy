/**
 * util/crypto_aes.go: PKCS #7 padding (section 6.3 of RFC 5652) and the
 * argument checks made before the AES calls. The block cipher itself is not
 * part of this model.
 */
module UtilCryptoAes {
  import opened Wrappers
  import opened Text
  import opened Go

  const AesBlockSize: nat := 16
  const GcmTagSize: nat := 16
  const GcmNonceSize: nat := 12

  /**
   * util.Pkcs7Padding: p = blockSize - len mod blockSize copies of the byte
   * p are appended, p converted to a byte as Go's byte(p) does.
   */
  function Pkcs7Padding(data: seq<byte>, blockSize: int): (rs: seq<byte>)
    requires blockSize > 0
    ensures |rs| == |data| + (blockSize - |data| % blockSize)
    ensures rs[..|data|] == data
    ensures forall i :: |data| <= i < |rs| ==> rs[i] == (blockSize - |data| % blockSize) % 256
  {
    var padding := blockSize - |data| % blockSize;
    data + seq(padding, _ => padding % 256)
  }

  /**
   * Between one byte and one whole block is added, even to data that is
   * already whole blocks, and the result is whole blocks.
   */
  lemma PaddingFillsBlock(data: seq<byte>, blockSize: int)
    requires blockSize > 0
    ensures var p := blockSize - |data| % blockSize; 1 <= p <= blockSize
    ensures |data| % blockSize == 0 ==> |Pkcs7Padding(data, blockSize)| == |data| + blockSize
    ensures |Pkcs7Padding(data, blockSize)| % blockSize == 0
  {
    var n := |data|;
    var q, r := n / blockSize, n % blockSize;
    assert n == q * blockSize + r;
    var m := |Pkcs7Padding(data, blockSize)|;
    assert m == (q + 1) * blockSize;
    MultipleMod(q + 1, blockSize);
  }

  /**
   * util.Pkcs7UnPadding: drops as many bytes as the last byte says, without
   * checking that those bytes are padding. None where the last byte exceeds
   * the length, so that Go's slice expression panics.
   */
  function Pkcs7UnPadding(data: seq<byte>): (r: Option<seq<byte>>)
    ensures r.None? <==> data != [] && data[|data| - 1] > |data|
    ensures data == [] ==> r == Some([])
    ensures r.Some? && data != [] ==> |r.value| == |data| - data[|data| - 1] && r.value == data[..|r.value|]
  {
    if |data| > 0 then
      var padding := data[|data| - 1];
      if padding > |data| then None else Some(data[..|data| - padding])
    else Some(data)
  }

  /** Removing the padding gives the data back, for every block size a byte can count. */
  lemma UnpadPad(data: seq<byte>, blockSize: int)
    requires 1 <= blockSize <= 255
    ensures Pkcs7UnPadding(Pkcs7Padding(data, blockSize)) == Some(data)
  {
    var padded := Pkcs7Padding(data, blockSize);
    assert padded[|padded| - 1] == blockSize - |data| % blockSize;
  }

  /**
   * With a block size of 256 the pad byte of a full block wraps to 0, so
   * unpadding removes nothing: the round trip fails.
   */
  lemma PadByteWraps(data: seq<byte>)
    requires |data| % 256 == 0
    ensures Pkcs7UnPadding(Pkcs7Padding(data, 256)) == Some(Pkcs7Padding(data, 256))
    ensures Pkcs7Padding(data, 256) != data
  {
    var padded := Pkcs7Padding(data, 256);
    assert padded[|padded| - 1] == 0;
    assert padded[..|padded| - 0] == padded;
  }

  /**
   * Unpadding never checks the pad: [5, 2] loses two bytes although 5 is not
   * a pad byte, and a last byte larger than the length panics.
   */
  lemma UnpadDoesNotCheck()
    ensures Pkcs7UnPadding([5, 2]) == Some([])
    ensures Pkcs7UnPadding([7, 9, 1]) == Some([7, 9])
    ensures Pkcs7UnPadding([7, 9, 4]) == None
  {
    assert [7, 9, 1][..2] == [7, 9];
  }

  /** fmt's %v of an int. */
  function ShowInt(i: int): string { FormatInt(i) }

  /** The iv check of EncryptAesCbc and DecryptAesCbc: the iv must be one block long. */
  function CheckIv(iv: seq<byte>, blockSize: nat): (r: Option<Error>)
    ensures r.None? <==> |iv| == blockSize
  {
    if |iv| != blockSize then
      Some(Plain("invalid iv length[expect=" + ShowInt(blockSize) + ",actual=" + ShowInt(|iv|) + "]"))
    else None
  }

  /** The ciphertext check of DecryptAesCbc: at least one block, and whole blocks. */
  function CheckEncryptedLength(encrypted: seq<byte>, blockSize: nat): (r: Option<Error>)
    requires blockSize > 0
    ensures r.None? <==> |encrypted| >= blockSize && |encrypted| % blockSize == 0
  {
    var n := |encrypted|;
    if n < blockSize || n % blockSize != 0 then
      Some(Plain("invalid encrypted length[expect=" + ShowInt(blockSize) + "x,actual=" + ShowInt(n) + "]"))
    else None
  }

  /** The nonce check of EncryptAesGcm: a GCM nonce is twelve bytes. */
  function CheckNonce(nonce: seq<byte>): (r: Option<Error>)
    ensures r.None? <==> |nonce| == GcmNonceSize
  {
    if |nonce| != GcmNonceSize then
      Some(Plain("invalid nonce size[expect=" + ShowInt(GcmNonceSize) + ",actual=" + ShowInt(|nonce|) + "]"))
    else None
  }

  /** aes.NewCipher accepts 16-, 24- and 32-byte keys (AES-128, -192 and -256). */
  predicate ValidAesKey(key: seq<byte>) {
    |key| == 16 || |key| == 24 || |key| == 32
  }

  /** The outcome of an AES call: the error of the first failed check, or the cipher's result. */
  datatype AesOutcome = CheckFailed(err: Error) | KeyRejected | Ciphered

  /** The checks EncryptAesCbc makes before ciphering, in order. */
  function EncryptAesCbcChecks(plain: seq<byte>, key: seq<byte>, iv: seq<byte>): (r: AesOutcome)
    ensures r == Ciphered <==> ValidAesKey(key) && |iv| == AesBlockSize
  {
    if !ValidAesKey(key) then KeyRejected
    else match CheckIv(iv, AesBlockSize)
      case Some(e) => CheckFailed(e)
      case None => Ciphered
  }

  /** The checks DecryptAesCbc makes before deciphering, in order. */
  function DecryptAesCbcChecks(encrypted: seq<byte>, key: seq<byte>, iv: seq<byte>): (r: AesOutcome)
    ensures r == Ciphered <==>
      ValidAesKey(key) && |iv| == AesBlockSize && |encrypted| >= AesBlockSize && |encrypted| % AesBlockSize == 0
    ensures !ValidAesKey(key) ==> r == KeyRejected
  {
    if !ValidAesKey(key) then KeyRejected
    else match CheckIv(iv, AesBlockSize)
      case Some(e) => CheckFailed(e)
      case None =>
        match CheckEncryptedLength(encrypted, AesBlockSize)
        case Some(e) => CheckFailed(e)
        case None => Ciphered
  }

  /** aes.KeySizeError, the error aes.NewCipher returns for a key of another length. */
  function KeySizeError(n: nat): Error {
    Plain("crypto/aes: invalid key size " + ShowInt(n))
  }

  /** The runtime error of a slice expression s[:j] with j negative, as OnExit recovers it. */
  function SliceBoundsError(j: int): Error {
    Plain("runtime error: slice bounds out of range [:" + ShowInt(j) + "]")
  }

  /**
   * util.DecryptAesCbc, with CBC decryption in place the parameter
   * `decipher(key, iv, encrypted)`: a failed check is the error, and
   * deciphered bytes whose last byte counts more bytes than there are (what a
   * wrong key or iv usually gives) make Pkcs7UnPadding's slice panic, which
   * OnExit turns into the returned error.
   */
  function DecryptAesCbc(encrypted: seq<byte>, key: seq<byte>, iv: seq<byte>,
                         decipher: (seq<byte>, seq<byte>, seq<byte>) -> seq<byte>): (r: Result<seq<byte>, Error>)
    ensures !ValidAesKey(key) ==> r == Failure(KeySizeError(|key|))
    ensures DecryptAesCbcChecks(encrypted, key, iv).CheckFailed? ==>
      r == Failure(DecryptAesCbcChecks(encrypted, key, iv).err)
    ensures r.Success? <==>
      DecryptAesCbcChecks(encrypted, key, iv) == Ciphered && Pkcs7UnPadding(decipher(key, iv, encrypted)).Some?
    ensures r.Success? ==> Some(r.value) == Pkcs7UnPadding(decipher(key, iv, encrypted))
  {
    match DecryptAesCbcChecks(encrypted, key, iv)
    case KeyRejected => Failure(KeySizeError(|key|))
    case CheckFailed(e) => Failure(e)
    case Ciphered =>
      var plain := decipher(key, iv, encrypted);
      match Pkcs7UnPadding(plain)
      case None => Failure(SliceBoundsError(|plain| - plain[|plain| - 1]))
      case Some(rs) => Success(rs)
  }

  /**
   * When the key and iv decipher the ciphertext to padded data, as they do
   * what EncryptAesCbc made with them, DecryptAesCbc gives the data back.
   */
  lemma DecryptPadded(encrypted: seq<byte>, key: seq<byte>, iv: seq<byte>, plain: seq<byte>,
                      decipher: (seq<byte>, seq<byte>, seq<byte>) -> seq<byte>)
    requires DecryptAesCbcChecks(encrypted, key, iv) == Ciphered
    requires decipher(key, iv, encrypted) == Pkcs7Padding(plain, AesBlockSize)
    ensures DecryptAesCbc(encrypted, key, iv, decipher) == Success(plain)
  {
    UnpadPad(plain, AesBlockSize);
  }

  /** A deciphered last byte beyond the length is reported as the recovered slice panic, not as data. */
  lemma WrongPadIsError(encrypted: seq<byte>, key: seq<byte>, iv: seq<byte>,
                        decipher: (seq<byte>, seq<byte>, seq<byte>) -> seq<byte>)
    requires DecryptAesCbcChecks(encrypted, key, iv) == Ciphered
    requires var d := decipher(key, iv, encrypted); d != [] && d[|d| - 1] > |d|
    ensures var d := decipher(key, iv, encrypted);
      DecryptAesCbc(encrypted, key, iv, decipher) == Failure(SliceBoundsError(|d| - d[|d| - 1])) &&
      |d| - d[|d| - 1] < 0
  {
  }

  /** EncryptAesGcm checks the nonce before the key. */
  function EncryptAesGcmChecks(plain: seq<byte>, key: seq<byte>, nonce: seq<byte>): (r: AesOutcome)
    ensures r == Ciphered <==> |nonce| == GcmNonceSize && ValidAesKey(key)
    ensures |nonce| != GcmNonceSize ==> r.CheckFailed?
  {
    match CheckNonce(nonce)
    case Some(e) => CheckFailed(e)
    case None => if !ValidAesKey(key) then KeyRejected else Ciphered
  }
}
