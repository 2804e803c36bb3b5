/**
  Request ids: sixteen characters that name the request and two hexadecimal digits that number the attempt.
  A notification carries the id of the attempt it answers, possibly with a suffix; the attempt number tells
  stale notifications from current ones.  Ids of return objects are the request id and two more digits.
 */
module RequestIds {

  type uint8 = x: int | 0 <= x < 256

  const REQUEST_ID_LEN: nat := 18
  const SEQ_LEN: nat := 2
  const RAW_ID_LEN: nat := REQUEST_ID_LEN - SEQ_LEN
  const RAW_SEQ_STR: string := "00"
  const REQUEST_NIL_ID: string := "ffffffffffffffff00"

  // --------------------------------------------------------------------------------- hexadecimal

  const HEX_DIGITS: string := "0123456789abcdef"

  function Uint8ToHex(value: uint8): (hex: string)
    ensures |hex| == SEQ_LEN && '@' !in hex && '-' !in hex
  {
    [HEX_DIGITS[value / 16], HEX_DIGITS[value % 16]]
  }

  function HexCharToUint8(c: char): (v: uint8)
    ensures v < 16
  {
    if '0' <= c <= '9' then (c - '0') as int
    else if 'A' <= c <= 'F' then (c - 'A') as int + 10
    else if 'a' <= c <= 'f' then (c - 'a') as int + 10
    else 0
  }

  /** Reading one place past the end of a string yields the null character; any further is undefined. */
  function CharAt(s: string, i: nat): char
    requires i <= |s|
  {
    if i < |s| then s[i] else '\0'
  }

  function HexToUint8(hex: string): (v: uint8)
    requires |hex| > 0
  {
    if hex == RAW_SEQ_STR then 0 else HexCharToUint8(hex[0]) * 16 + HexCharToUint8(CharAt(hex, 1))
  }

  lemma HexRoundTrip(value: uint8)
    ensures HexToUint8(Uint8ToHex(value)) == value
  {
    var hi, lo := value / 16, value % 16;
    HexDigitValue(hi);
    HexDigitValue(lo);
    assert Uint8ToHex(value)[0] == HEX_DIGITS[hi] && Uint8ToHex(value)[1] == HEX_DIGITS[lo];
  }

  lemma HexDigitValue(d: nat)
    requires d < 16
    ensures HexCharToUint8(HEX_DIGITS[d]) == d
  {
  }

  // ------------------------------------------------------------------------------------ splitting

  /** The place of the first `sep` at or after `i`, or the length. */
  function Find(s: string, sep: char, i: nat): (k: nat)
    requires i <= |s|
    ensures i <= k <= |s| && (forall j :: i <= j < k ==> s[j] != sep) && (k < |s| ==> s[k] == sep)
    decreases |s| - i
  {
    if i == |s| || s[i] == sep then i else Find(s, sep, i + 1)
  }

  /** The tokens between separators; an empty rest yields no token. */
  function Split(s: string, sep: char): (tokens: seq<string>)
    ensures tokens == [] <==> s == ""
    ensures s != "" ==> tokens[0] == s[..Find(s, sep, 0)]
    decreases |s|
  {
    if s == "" then []
    else
      var k := Find(s, sep, 0);
      if k == |s| then [s] else [s[..k]] + Split(s[k + 1..], sep)
  }

  /** `Undefined` where the code indexes past the end. */
  datatype Parsed = Parsed(id: string) | Undefined

  function ParseRealRequestId(reqId: string): Parsed {
    var result := Split(reqId, '@');
    if result == [] then Parsed(REQUEST_NIL_ID)
    else
      var tmpResult := Split(result[0], '-');
      if tmpResult == [] then Undefined else Parsed(tmpResult[0])
  }

  /** The first separator of either kind. */
  predicate CutsAt(s: string, k: nat) {
    && k <= |s| && (forall j :: 0 <= j < k ==> s[j] != '@' && s[j] != '-')
    && (k < |s| ==> s[k] == '@' || s[k] == '-')
  }

  /** The real id is what precedes the first separator of either kind. */
  lemma ParseTakesFirstPart(reqId: string, k: nat)
    requires CutsAt(reqId, k)
    ensures ParseRealRequestId(reqId) ==
      if reqId == "" then Parsed(REQUEST_NIL_ID)
      else if k == 0 && reqId[0] == '@' then Undefined
      else Parsed(reqId[..k])
  {
    var at := Find(reqId, '@', 0);
    var first := reqId[..at];
    if first != "" {
      var dash := Find(first, '-', 0);
      assert dash == k;
      assert first[..k] == reqId[..k];
    }
  }

  // ------------------------------------------------------------------------------- ids of attempts

  function Prefix(s: string, n: nat): string {
    if |s| <= n then s else s[..n]
  }

  function GenRequestId(requestId: string, index: uint8): (id: string) {
    Prefix(requestId, RAW_ID_LEN) + Uint8ToHex(index)
  }

  datatype Decoded = Decoded(rawRequestId: string, seq_: uint8) | OutOfRange | BadIndex

  /** The id with its attempt reset, and the attempt. */
  function DecodeId(id: string): Decoded {
    if |id| < RAW_ID_LEN then OutOfRange
    else if |id| == RAW_ID_LEN then BadIndex
    else Decoded(id[..RAW_ID_LEN] + RAW_SEQ_STR, HexToUint8(id[RAW_ID_LEN..]))
  }

  function DecodeRawRequestId(requestId: string): Decoded {
    if requestId == "" then Decoded(REQUEST_NIL_ID, 0)
    else if '@' !in requestId && '-' !in requestId then DecodeId(requestId)
    else
      match ParseRealRequestId(requestId)
      case Undefined => BadIndex
      case Parsed(id) => DecodeId(id)
  }

  /** What `GenRequestId` makes and the code expects of a request's own id. */
  predicate RawId(id: string) {
    |id| == REQUEST_ID_LEN && id[RAW_ID_LEN..] == RAW_SEQ_STR && '@' !in id && '-' !in id
  }

  predicate Suffix(s: string) {
    s == "" || s[0] == '@' || s[0] == '-'
  }

  /** A suffix makes no difference. */
  lemma SuffixIsDropped(id: string, suffix: string)
    requires id != "" && '@' !in id && '-' !in id && Suffix(suffix)
    ensures DecodeRawRequestId(id + suffix) == DecodeId(id)
  {
    if suffix == "" {
      assert id + suffix == id;
    } else {
      var s := id + suffix;
      assert s[|id|] == suffix[0];
      assert CutsAt(s, |id|);
      ParseTakesFirstPart(s, |id|);
      assert s[..|id|] == id;
    }
  }

  /** Every attempt's id, with any suffix, decodes to the request and the attempt; exactly for ids that end in "00". */
  lemma DecodeInvertsAttempt(id: string, k: uint8, suffix: string)
    requires |id| == REQUEST_ID_LEN && '@' !in id && '-' !in id && Suffix(suffix)
    ensures DecodeRawRequestId(GenRequestId(id, k) + suffix) == Decoded(id, k) <==> RawId(id)
  {
    var attempt := GenRequestId(id, k);
    assert attempt[..RAW_ID_LEN] == id[..RAW_ID_LEN] && attempt[RAW_ID_LEN..] == Uint8ToHex(k);
    HexRoundTrip(k);
    SuffixIsDropped(attempt, suffix);
    assert id == id[..RAW_ID_LEN] + id[RAW_ID_LEN..];
  }

  /** Decoding an attempt's id and regenerating it from the result gives the same id back. */
  lemma AttemptsNest(id: string, j: uint8, k: uint8)
    requires RawId(id)
    ensures GenRequestId(GenRequestId(id, j), k) == GenRequestId(id, k)
    ensures GenRequestId(id, 0) == id
    ensures GenRequestId(id, j) == GenRequestId(id, k) <==> j == k
  {
    assert GenRequestId(id, j)[..RAW_ID_LEN] == id[..RAW_ID_LEN];
    assert Uint8ToHex(0) == RAW_SEQ_STR;
    assert id == id[..RAW_ID_LEN] + id[RAW_ID_LEN..];
    assert GenRequestId(id, j)[RAW_ID_LEN..] == Uint8ToHex(j);
    assert GenRequestId(id, k)[RAW_ID_LEN..] == Uint8ToHex(k);
    HexRoundTrip(j);
    HexRoundTrip(k);
  }

  // ---------------------------------------------------------------------------- stale notifications

  class InvokeSpec {
    const requestId: string
    /** The current attempt; counts modulo 256. */
    var attempt: uint8

    constructor (requestId: string)
      ensures this.requestId == requestId && attempt == 0
    {
      this.requestId := requestId;
      attempt := 0;
    }

    method IncrementSeq()
      modifies this
      ensures attempt == (old(attempt) + 1) % 256
    {
      attempt := if attempt == 255 then 0 else attempt + 1;
    }

    function ConstructRequestID(): string
      reads this
    {
      GenRequestId(requestId, attempt)
    }

    predicate IsStaleDuplicateNotify(sequence: uint8)
      reads this
    {
      sequence != attempt
    }
  }

  /** The counter after `n` increments. */
  function AttemptAfter(n: nat): uint8 {
    if n == 0 then 0 else (AttemptAfter(n - 1) + 1) % 256
  }

  lemma ModuloStep(n: nat)
    ensures (n % 256 + 1) % 256 == (n + 1) % 256
  {
    assert n == 256 * (n / 256) + n % 256;
    assert n % 256 == 255 ==> n + 1 == 256 * (n / 256 + 1);
  }

  lemma {:induction false} AttemptIsModulo(n: nat)
    ensures AttemptAfter(n) == n % 256
  {
    if n > 0 {
      AttemptIsModulo(n - 1);
      ModuloStep(n - 1);
    }
  }

  /** A notification is taken when it decodes to a known request whose current attempt it names. */
  predicate Accepts(id: string, current: nat, notification: string) {
    DecodeRawRequestId(notification) == Decoded(id, AttemptAfter(current))
  }

  lemma AcceptsIffSameCount(id: string, j: uint8, k: uint8, suffix: string)
    requires RawId(id) && Suffix(suffix)
    ensures DecodeRawRequestId(GenRequestId(id, j) + suffix) == Decoded(id, k) <==> j == k
  {
    DecodeInvertsAttempt(id, j, suffix);
  }

  /** A notification for attempt `made` is taken during attempt `current` exactly when the two are a multiple of 256
      apart: within 256 attempts, exactly when it answers the current one. */
  lemma OnlyCurrentAccepted(id: string, made: nat, current: nat, suffix: string)
    requires RawId(id) && made <= current && Suffix(suffix)
    ensures Accepts(id, current, GenRequestId(id, AttemptAfter(made)) + suffix) <==> (current - made) % 256 == 0
    ensures current - made < 256 ==>
      (Accepts(id, current, GenRequestId(id, AttemptAfter(made)) + suffix) <==> made == current)
  {
    AcceptsIffSameCount(id, AttemptAfter(made), AttemptAfter(current), suffix);
    SameCount(made, current);
  }

  lemma SameCount(a: nat, b: nat)
    requires a <= b
    ensures AttemptAfter(a) == AttemptAfter(b) <==> (b - a) % 256 == 0
    ensures b - a < 256 ==> (AttemptAfter(a) == AttemptAfter(b) <==> a == b)
  {
    AttemptIsModulo(a);
    AttemptIsModulo(b);
    SameModulo(a, b);
  }

  lemma SameModulo(a: nat, b: nat)
    requires a <= b
    ensures a % 256 == b % 256 <==> (b - a) % 256 == 0
  {
  }

  /** The spec's own filter: while it is at attempt `current`, a notification for attempt `made` of its request decodes
      to that request and passes the filter exactly when the two are a multiple of 256 apart; in particular the id
      under which it sends the current attempt passes. */
  lemma SpecFilters(spec: InvokeSpec, made: nat, current: nat, suffix: string)
    requires RawId(spec.requestId) && spec.attempt == AttemptAfter(current) && made <= current && Suffix(suffix)
    ensures var d := DecodeRawRequestId(GenRequestId(spec.requestId, AttemptAfter(made)) + suffix);
      && d.Decoded? && d.rawRequestId == spec.requestId
      && (!spec.IsStaleDuplicateNotify(d.seq_) <==> (current - made) % 256 == 0)
    ensures var d := DecodeRawRequestId(spec.ConstructRequestID() + suffix);
      d.Decoded? && d.rawRequestId == spec.requestId && !spec.IsStaleDuplicateNotify(d.seq_)
  {
    hide AttemptAfter, RawId, Suffix;
    NotificationDecodes(spec.requestId, AttemptAfter(made), suffix);
    NotificationDecodes(spec.requestId, AttemptAfter(current), suffix);
    SameCount(made, current);
  }

  lemma NotificationDecodes(id: string, k: uint8, suffix: string)
    requires RawId(id) && Suffix(suffix)
    ensures DecodeRawRequestId(GenRequestId(id, k) + suffix) == Decoded(id, k)
  {
    DecodeInvertsAttempt(id, k, suffix);
  }

  /** 256 attempts later a stale answer is taken for the current one. */
  lemma AttemptsWrapAround(id: string, made: nat, current: nat, suffix: string)
    requires RawId(id) && current == made + 256 && Suffix(suffix)
    ensures made != current && Accepts(id, current, GenRequestId(id, AttemptAfter(made)) + suffix)
  {
    OnlyCurrentAccepted(id, made, current, suffix);
  }

  // --------------------------------------------------------------------------- ids of return objects

  function GenObjectId(requestId: string, index: uint8): string {
    requestId + Uint8ToHex(index)
  }

  function GetRequestIdFromObj(objectId: string): string {
    Prefix(objectId, REQUEST_ID_LEN)
  }

  /** The index is a size cut down to eight bits. */
  method GenerateReturnObjectIds(requestId: string, returnObjs: array<string>)
    modifies returnObjs
    ensures forall i :: 0 <= i < returnObjs.Length ==> returnObjs[i] == GenObjectId(requestId, i % 256)
  {
    for i := 0 to returnObjs.Length
      invariant forall j :: 0 <= j < i ==> returnObjs[j] == GenObjectId(requestId, j % 256)
    {
      returnObjs[i] := GenObjectId(requestId, i % 256);
    }
  }

  lemma ObjectIdsApart(requestId: string, i: nat, j: nat)
    ensures GenObjectId(requestId, i % 256) == GenObjectId(requestId, j % 256) <==> i % 256 == j % 256
  {
    assert GenObjectId(requestId, i % 256)[|requestId|..] == Uint8ToHex(i % 256);
    assert GenObjectId(requestId, j % 256)[|requestId|..] == Uint8ToHex(j % 256);
    HexRoundTrip(i % 256);
    HexRoundTrip(j % 256);
  }

  /** The ids of a request's return objects are distinct exactly up to 256 of them. */
  lemma ReturnIdsDistinctIff(requestId: string, ids: seq<string>)
    requires forall i :: 0 <= i < |ids| ==> ids[i] == GenObjectId(requestId, i % 256)
    ensures (forall i, j :: 0 <= i < j < |ids| ==> ids[i] != ids[j]) <==> |ids| <= 256
  {
    forall i, j | 0 <= i < j < |ids| && j < 256 ensures ids[i] != ids[j] {
      ObjectIdsApart(requestId, i, j);
    }
    if |ids| > 256 {
      assert ids[0] == ids[256];
    }
  }

  /** An object id leads back to the request id it was made from exactly when that has the usual length. */
  lemma ObjectLeadsBack(requestId: string, index: uint8)
    ensures GetRequestIdFromObj(GenObjectId(requestId, index)) == requestId <==> |requestId| == REQUEST_ID_LEN
  {
    var objectId := GenObjectId(requestId, index);
    assert objectId[..|requestId|] == requestId;
  }

  /** No two requests share an object id, nor two objects of one request below index 256. */
  lemma ObjectIdsIdentify(a: string, i: uint8, b: string, j: uint8)
    requires |a| == |b| == REQUEST_ID_LEN
    ensures GenObjectId(a, i) == GenObjectId(b, j) <==> a == b && i == j
  {
    assert GenObjectId(a, i)[..REQUEST_ID_LEN] == a && GenObjectId(a, i)[REQUEST_ID_LEN..] == Uint8ToHex(i);
    assert GenObjectId(b, j)[..REQUEST_ID_LEN] == b && GenObjectId(b, j)[REQUEST_ID_LEN..] == Uint8ToHex(j);
    HexRoundTrip(i);
    HexRoundTrip(j);
  }
}
