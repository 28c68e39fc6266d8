/** The bytes of an uploaded file and of its MD5 digest. */
module Digests {
  newtype byte = x: int | 0 <= x < 256

  type Bytes = seq<byte>

  /** An MD5 digest: 16 bytes. */
  type Md5Digest = d: Bytes | |d| == 16
    witness [0, 0, 0, 0, 0, 0, 0, 0, 0, 0, 0, 0, 0, 0, 0, 0]
}

/** modules/utils.py: the image fingerprint and the branch-code check.

    `hash_image` is `hashlib.md5(bytes).hexdigest()`. MD5 itself (RFC 1321)
    is not modelled: it is a function `md5` of type `Bytes -> Md5Digest`,
    any deterministic function yielding 16 bytes, which the session state
    holds as a constant. The hex rendering that
    `hexdigest()` performs on those 16 bytes is modelled exactly. */
module Utils {
  import opened Digests
  import opened Tables
  import opened Text

  const HexDigits: string := "0123456789abcdef"

  predicate IsLowerHexChar(c: char)
  {
    '0' <= c <= '9' || 'a' <= c <= 'f'
  }

  /** Every character of `s` is a lower-case hexadecimal digit. */
  predicate IsLowerHex(s: string)
  {
    forall i :: 0 <= i < |s| ==> IsLowerHexChar(s[i])
  }

  /** `bytes.hex()`: two lower-case hex digits per byte, high nibble first. */
  function HexEncode(bytes: Bytes): (r: string)
    ensures |r| == 2 * |bytes|
    ensures IsLowerHex(r)
  {
    if bytes == [] then []
    else [HexDigits[bytes[0] as int / 16], HexDigits[bytes[0] as int % 16]] + HexEncode(bytes[1..])
  }

  /** The value of one lower-case hex digit: its position in HexDigits
      (0 for any other character). */
  function HexValue(c: char): (v: nat)
    ensures v < 16
    ensures IsLowerHexChar(c) ==> HexDigits[v] == c
  {
    if '0' <= c <= '9' then c as int - '0' as int
    else if 'a' <= c <= 'f' then c as int - 'a' as int + 10
    else 0
  }

  /** Reads a string of hex digit pairs back into bytes: byte `k` is the
      value of digits `2k` and `2k + 1`. */
  function HexDecode(s: string): (bytes: Bytes)
    ensures |bytes| == |s| / 2
  {
    seq(|s| / 2, k requires 0 <= k < |s| / 2 => (16 * HexValue(s[2 * k]) + HexValue(s[2 * k + 1])) as byte)
  }

  /** Each hex digit reads back as its own position. */
  lemma HexValueOfDigit(k: nat)
    requires k < 16
    ensures IsLowerHexChar(HexDigits[k]) && HexValue(HexDigits[k]) == k
  {
  }

  /** One byte's two hex digits read back as that byte. */
  lemma HexBytePair(x: byte)
    ensures var hi, lo := HexDigits[x as int / 16], HexDigits[x as int % 16];
            IsLowerHexChar(hi) && IsLowerHexChar(lo)
            && (16 * HexValue(hi) + HexValue(lo)) as byte == x
  {
    var b := x as int;
    HexValueOfDigit(b / 16);
    HexValueOfDigit(b % 16);
    assert 16 * (b / 16) + b % 16 == b;
  }

  /** Byte `k` is rendered as the digits at positions `2k` and `2k + 1`. */
  lemma {:induction false} HexEncodeAt(bytes: Bytes, k: nat)
    requires k < |bytes|
    ensures HexEncode(bytes)[2 * k] == HexDigits[bytes[k] as int / 16]
    ensures HexEncode(bytes)[2 * k + 1] == HexDigits[bytes[k] as int % 16]
  {
    if k > 0 {
      var tail := HexEncode(bytes[1..]);
      assert HexEncode(bytes)[2..] == tail;
      HexEncodeAt(bytes[1..], k - 1);
      assert HexEncode(bytes)[2 * k] == tail[2 * (k - 1)];
      assert HexEncode(bytes)[2 * k + 1] == tail[2 * (k - 1) + 1];
    }
  }

  /** Byte `k` of the decoded rendering is byte `k` of the input. */
  lemma HexDecodeAt(bytes: Bytes, k: nat)
    requires k < |bytes|
    ensures |HexDecode(HexEncode(bytes))| == |bytes|
    ensures HexDecode(HexEncode(bytes))[k] == bytes[k]
  {
    var r := HexEncode(bytes);
    HexEncodeAt(bytes, k);
    HexBytePair(bytes[k]);
    assert HexDecode(r)[k] == (16 * HexValue(r[2 * k]) + HexValue(r[2 * k + 1])) as byte;
  }

  /** Decoding the hex rendering gives back the bytes. */
  lemma HexRoundTrip(bytes: Bytes)
    ensures HexDecode(HexEncode(bytes)) == bytes
  {
    var d := HexDecode(HexEncode(bytes));
    forall k | 0 <= k < |bytes| ensures d[k] == bytes[k] {
      HexDecodeAt(bytes, k);
    }
  }

  /** `hash_image`: the hex digest of the uploaded file's bytes, a
      32-character lower-case hexadecimal string. */
  function HashImage(md5: Bytes -> Md5Digest, image: Bytes): (h: string)
    ensures |h| == 32 && IsLowerHex(h)
  {
    HexEncode(md5(image))
  }

  /** The fingerprint is deterministic and loses nothing beyond MD5 itself:
      two images get the same fingerprint exactly when their digests agree. */
  lemma FingerprintMatchesDigest(md5: Bytes -> Md5Digest, a: Bytes, b: Bytes)
    ensures a == b ==> HashImage(md5, a) == HashImage(md5, b)
    ensures HashImage(md5, a) == HashImage(md5, b) <==> md5(a) == md5(b)
  {
    HexRoundTrip(md5(a));
    HexRoundTrip(md5(b));
  }

  /** The codes of all stored branches, in table order (modules/utils.py:4). */
  function StoredCodes(branches: seq<Branch>): (codes: seq<string>)
    ensures |codes| == |branches|
    ensures forall c :: c in codes <==> exists i :: 0 <= i < |branches| && branches[i].code == c
  {
    var codes := seq(|branches|, i requires 0 <= i < |branches| => branches[i].code);
    assert forall i :: 0 <= i < |branches| ==> codes[i] == branches[i].code;
    codes
  }

  /** `validate_branch_code`: true exactly when some stored branch has the
      upper-cased code. */
  function ValidateBranchCode(code: string, branches: seq<Branch>): (ok: bool)
    ensures ok <==> exists i :: 0 <= i < |branches| && branches[i].code == Upper(code)
  {
    Upper(code) in StoredCodes(branches)
  }

  /** Validation ignores the case of its input. */
  lemma ValidateIgnoresCase(code: string, branches: seq<Branch>)
    ensures ValidateBranchCode(code, branches) == ValidateBranchCode(Upper(code), branches)
  {
    UpperIdempotent(code);
  }

  /** With no stored branches nothing validates. */
  lemma NothingValidatesWithoutBranches(code: string)
    ensures !ValidateBranchCode(code, [])
  {
  }

  /** Validation agrees with a successful branch lookup. */
  lemma ValidateMeansFound(code: string, branches: seq<Branch>)
    ensures ValidateBranchCode(code, branches) <==> FindBranch(branches, Upper(code)).Some?
  {
  }
}
