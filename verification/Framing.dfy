/** Byte framing around the digests: hex, delivery identities and the signed message. */
module Framing {
  import opened Types

  const NUL: byte := 0
  const DOT: byte := 46
  const UPPER_Z: byte := 90

  function HexDigit(n: int): byte
    requires 0 <= n < 16
  {
    if n < 10 then 48 + n else 87 + n
  }

  function HexOf(value: Bytes): Bytes {
    if value == [] then [] else [HexDigit(value[0] / 16), HexDigit(value[0] % 16)] + HexOf(value[1..])
  }

  predicate IsHexDigit(b: byte) { 48 <= b <= 57 || 65 <= b <= 70 || 97 <= b <= 102 }

  predicate IsAlphanumeric(b: byte) { 48 <= b <= 57 || 65 <= b <= 90 || 97 <= b <= 122 }

  /** Bytes `.`, `_`, `-`, `:` and `/` besides letters and digits. */
  predicate ValidEventName(value: Bytes) {
    && value != [] && |value| <= 256
    && forall i | 0 <= i < |value| :: IsAlphanumeric(value[i]) || value[i] in {46, 95, 45, 58, 47}
  }

  const WH: Bytes := [119, 104, 95]

  predicate ValidDeliveryId(value: Bytes) {
    && |value| == 51 && value[..3] == WH
    && forall i | 3 <= i < |value| :: IsHexDigit(value[i])
  }

  function IdentityBytes(endpointUrl: Bytes, eventId: Bytes): Bytes {
    endpointUrl + [NUL] + eventId
  }

  lemma {:induction false} HexShape(value: Bytes)
    ensures |HexOf(value)| == 2 * |value|
    ensures forall i | 0 <= i < |HexOf(value)| :: IsHexDigit(HexOf(value)[i])
  {
    if value != [] { HexShape(value[1..]); }
  }

  lemma {:induction false} HexAppend(value: Bytes, b: byte)
    ensures HexOf(value + [b]) == HexOf(value) + [HexDigit(b / 16), HexDigit(b % 16)]
  {
    if value == [] {
      assert [b][1..] == [];
      assert HexOf([]) == [];
    } else {
      assert (value + [b])[1..] == value[1..] + [b];
      HexAppend(value[1..], b);
    }
  }

  /** The value of a lower-case hexadecimal digit, or -1. */
  function Digit(b: byte): int {
    if 48 <= b <= 57 then b - 48 else if 97 <= b <= 102 then b - 87 else -1
  }

  /** The text has two lower-case digits for each byte, the high one first. */
  predicate ReadsAs(text: Bytes, value: Bytes) {
    && |text| == 2 * |value|
    && forall i | 0 <= i < |value| ::
      0 <= Digit(text[2 * i]) && 0 <= Digit(text[2 * i + 1])
      && value[i] == 16 * Digit(text[2 * i]) + Digit(text[2 * i + 1])
  }

  lemma {:induction false} HexReads(value: Bytes)
    ensures ReadsAs(HexOf(value), value)
  {
    if value != [] {
      var text, rest := HexOf(value), HexOf(value[1..]);
      HexReads(value[1..]);
      forall i | 0 <= i < |value|
        ensures 0 <= Digit(text[2 * i]) && 0 <= Digit(text[2 * i + 1])
        ensures value[i] == 16 * Digit(text[2 * i]) + Digit(text[2 * i + 1])
      {
        if i > 0 {
          assert text[2 * i] == rest[2 * (i - 1)] && text[2 * i + 1] == rest[2 * (i - 1) + 1];
          assert value[i] == value[1..][i - 1];
        }
      }
    }
  }

  /** Nothing is lost: equal hex texts come from equal bytes. */
  lemma {:induction false} HexInjective(a: Bytes, b: Bytes)
    requires HexOf(a) == HexOf(b)
    ensures a == b
  {
    HexShape(a);
    HexShape(b);
    if a != [] {
      var ha, hb := HexOf(a), HexOf(b);
      assert ha[0] == hb[0] && ha[1] == hb[1];
      assert a[0] == b[0];
      assert HexOf(a[1..]) == ha[2..] && HexOf(b[1..]) == hb[2..];
      HexInjective(a[1..], b[1..]);
      assert a == [a[0]] + a[1..] && b == [b[0]] + b[1..];
    }
  }

  /** The loop that pushes two digits a byte. */
  method Hex(value: Bytes) returns (text: Bytes)
    ensures text == HexOf(value) && ReadsAs(text, value)
  {
    HexReads(value);
    text := [];
    for i := 0 to |value|
      invariant text == HexOf(value[..i])
    {
      HexAppend(value[..i], value[i]);
      assert value[..i + 1] == value[..i] + [value[i]];
      text := text + [HexDigit(value[i] / 16)];
      text := text + [HexDigit(value[i] % 16)];
    }
    assert value[..|value|] == value;
  }

  function StableDeliveryId(sha256: Bytes -> Digest, endpointUrl: Bytes, eventId: Bytes): (id: DeliveryId)
    ensures ValidDeliveryId(id)
  {
    HexShape(sha256(IdentityBytes(endpointUrl, eventId)));
    WH + HexOf(sha256(IdentityBytes(endpointUrl, eventId)))[..48]
  }

  /** Feeds the digest piece by piece. */
  method ComputeDeliveryId(sha256: Bytes -> Digest, endpointUrl: Bytes, eventId: Bytes) returns (id: DeliveryId)
    ensures id == StableDeliveryId(sha256, endpointUrl, eventId)
  {
    var fed := endpointUrl;
    fed := fed + [NUL];
    fed := fed + eventId;
    var text := Hex(sha256(fed));
    HexShape(sha256(fed));
    id := WH + text[..48];
  }

  /** An id is `wh_` and the hexadecimal text of the first 24 digest bytes of endpoint, NUL and event id. */
  lemma DeliveryIdReads(sha256: Bytes -> Digest, endpointUrl: Bytes, eventId: Bytes)
    ensures var id := StableDeliveryId(sha256, endpointUrl, eventId);
      && |id| == 51 && id[..3] == Ascii("wh_")
      && ReadsAs(id[3..], sha256(endpointUrl + [0] + eventId)[..24])
  {
    var digest := sha256(endpointUrl + [0] + eventId);
    HexPrefix(digest, 24);
    HexReads(digest[..24]);
    assert StableDeliveryId(sha256, endpointUrl, eventId)[3..] == HexOf(digest[..24]);
  }

  /** Names of events are 1 to 256 of these characters. */
  lemma EventNameAlphabet(value: Bytes)
    ensures ValidEventName(value) <==>
      1 <= |value| <= 256
      && forall i | 0 <= i < |value| ::
        var c := value[i] as char;
        'A' <= c <= 'Z' || 'a' <= c <= 'z' || '0' <= c <= '9' || c in {'.', '_', '-', ':', '/'}
  {
  }

  /** Ids are `wh_` and 48 hexadecimal digits of either case. */
  lemma DeliveryIdAlphabet(value: Bytes)
    ensures ValidDeliveryId(value) <==>
      |value| == 51 && value[..3] == Ascii("wh_")
      && forall i | 3 <= i < 51 ::
        var c := value[i] as char;
        '0' <= c <= '9' || 'a' <= c <= 'f' || 'A' <= c <= 'F'
  {
  }

  /** The 24 digest bytes that a delivery id shows. */
  function Truncated(digest: Digest): Bytes { digest[..24] }

  /** The separator of the longer endpoint would lie inside the other event id. */
  lemma SeparatorFallsInEvent(url1: Bytes, event1: Bytes, url2: Bytes, event2: Bytes)
    requires IdentityBytes(url1, event1) == IdentityBytes(url2, event2)
    ensures |url1| < |url2| ==> NUL in event1
  {
    if |url1| < |url2| {
      assert IdentityBytes(url1, event1)[|url2|] == event1[|url2| - |url1| - 1];
      assert IdentityBytes(url2, event2)[|url2|] == NUL;
    }
  }

  /** Endpoint and event id decode uniquely: the last NUL separates them. */
  lemma IdentityBytesDecode(url1: Bytes, event1: Bytes, url2: Bytes, event2: Bytes)
    requires NUL !in event1 && NUL !in event2
    requires IdentityBytes(url1, event1) == IdentityBytes(url2, event2)
    ensures url1 == url2 && event1 == event2
  {
    SeparatorFallsInEvent(url1, event1, url2, event2);
    SeparatorFallsInEvent(url2, event2, url1, event1);
    var all1, all2 := IdentityBytes(url1, event1), IdentityBytes(url2, event2);
    assert all1[..|url1|] == url1 && all2[..|url2|] == url2;
    assert all1[|url1| + 1..] == event1 && all2[|url2| + 1..] == event2;
  }

  lemma {:induction false} HexPrefix(value: Bytes, n: nat)
    requires n <= |value|
    ensures 2 * n <= |HexOf(value)| && HexOf(value)[..2 * n] == HexOf(value[..n])
  {
    HexShape(value);
    if n > 0 {
      HexPrefix(value[1..], n - 1);
      assert value[..n][1..] == value[1..][..n - 1];
      assert HexOf(value)[..2 * n] == HexOf(value)[..2] + HexOf(value[1..])[..2 * (n - 1)];
    }
  }

  /** Two deliveries share an identity only if they are the same, or their truncated digests collide. */
  lemma SameIdentityOrCollision(sha256: Bytes -> Digest, url1: Bytes, event1: Bytes, url2: Bytes, event2: Bytes)
    requires ValidEventName(event1) && ValidEventName(event2)
    ensures StableDeliveryId(sha256, url1, event1) == StableDeliveryId(sha256, url2, event2)
       <==> Truncated(sha256(IdentityBytes(url1, event1))) == Truncated(sha256(IdentityBytes(url2, event2)))
    ensures IdentityBytes(url1, event1) == IdentityBytes(url2, event2) <==> (url1 == url2 && event1 == event2)
  {
    var d1, d2 := sha256(IdentityBytes(url1, event1)), sha256(IdentityBytes(url2, event2));
    HexPrefix(d1, 24);
    HexPrefix(d2, 24);
    var id1, id2 := StableDeliveryId(sha256, url1, event1), StableDeliveryId(sha256, url2, event2);
    assert id1[3..] == HexOf(d1[..24]) && id2[3..] == HexOf(d2[..24]);
    if id1 == id2 { HexInjective(d1[..24], d2[..24]); }
    if IdentityBytes(url1, event1) == IdentityBytes(url2, event2) {
      IdentityBytesDecode(url1, event1, url2, event2);
    }
  }

  predicate IsDigit(b: byte) { 48 <= b <= 57 }

  predicate Digits(s: Bytes, from: nat, to: nat)
    requires from <= to <= |s|
  {
    forall i | from <= i < to :: IsDigit(s[i])
  }

  /** RFC 3339, section 5.6, in UTC: full-date "T" time [ "." 1*9DIGIT ] "Z". */
  predicate IsUtcTimestamp(s: Bytes) {
    && |s| >= 20
    && Digits(s, 0, 4) && s[4] == 45 && Digits(s, 5, 7) && s[7] == 45 && Digits(s, 8, 10)
    && s[10] == 84 && Digits(s, 11, 13) && s[13] == 58 && Digits(s, 14, 16) && s[16] == 58 && Digits(s, 17, 19)
    && s[|s| - 1] == UPPER_Z
    && (|s| == 20 || (22 <= |s| <= 30 && s[19] == DOT && Digits(s, 20, |s| - 1)))
  }

  function SignedBytes(id: DeliveryId, timestamp: Bytes, payload: Bytes): Bytes {
    id + [DOT] + timestamp + [DOT] + payload
  }

  /** The signature covers the pieces fed to the MAC one after the other. */
  method SignPayload(hmac: (Bytes, Bytes) -> Digest, key: Bytes, id: DeliveryId, timestamp: Bytes, payload: Bytes)
    returns (signature: Bytes)
    ensures signature == HexOf(hmac(key, SignedBytes(id, timestamp, payload)))
    ensures ReadsAs(signature, hmac(key, id + [46] + timestamp + [46] + payload))
  {
    var fed := id;
    fed := fed + [DOT];
    fed := fed + timestamp;
    fed := fed + [DOT];
    fed := fed + payload;
    signature := Hex(hmac(key, fed));
  }

  lemma OnlyLastIsZ(s: Bytes)
    requires IsUtcTimestamp(s)
    ensures forall i | 0 <= i < |s| :: s[i] == UPPER_Z <==> i == |s| - 1
  {
  }

  /** The final Z of the shorter timestamp would lie inside the longer one. */
  lemma FinalZFallsInside(id1: DeliveryId, t1: Bytes, p1: Bytes, id2: DeliveryId, t2: Bytes, p2: Bytes)
    requires |id1| == |id2| && t1 != []
    requires SignedBytes(id1, t1, p1) == SignedBytes(id2, t2, p2)
    ensures |t1| < |t2| ==> t2[|t1| - 1] == t1[|t1| - 1]
  {
    if |t1| < |t2| {
      var at := |id1| + |t1|;
      assert SignedBytes(id1, t1, p1)[at] == t1[|t1| - 1];
      assert SignedBytes(id2, t2, p2)[at] == t2[|t1| - 1];
    }
  }

  /** The signed bytes decode uniquely, although a fractional second contains the separator. */
  lemma SignedBytesDecode(id1: DeliveryId, t1: Bytes, p1: Bytes, id2: DeliveryId, t2: Bytes, p2: Bytes)
    requires ValidDeliveryId(id1) && ValidDeliveryId(id2) && IsUtcTimestamp(t1) && IsUtcTimestamp(t2)
    requires SignedBytes(id1, t1, p1) == SignedBytes(id2, t2, p2)
    ensures id1 == id2 && t1 == t2 && p1 == p2
  {
    OnlyLastIsZ(t1);
    OnlyLastIsZ(t2);
    FinalZFallsInside(id1, t1, p1, id2, t2, p2);
    FinalZFallsInside(id2, t2, p2, id1, t1, p1);
    var all1, all2 := SignedBytes(id1, t1, p1), SignedBytes(id2, t2, p2);
    var n := |t1|;
    assert all1[..51] == id1 && all2[..51] == id2;
    assert all1[52..52 + n] == t1 && all2[52..52 + n] == t2;
    assert all1[53 + n..] == p1 && all2[53 + n..] == p2;
  }

  // ---- Headers ----

  datatype Header = Header(name: string, value: Bytes)

  predicate IsAscii(s: string) {
    forall i | 0 <= i < |s| :: s[i] < 128 as char
  }

  function Ascii(s: string): (text: Bytes)
    requires IsAscii(s)
    ensures |text| == |s|
  {
    seq(|s|, i requires 0 <= i < |s| => s[i] as int)
  }

  const ID_HEADER := "x-lenso-webhook-id"
  const EVENT_HEADER := "x-lenso-webhook-event-id"
  const TIMESTAMP_HEADER := "x-lenso-webhook-timestamp"
  const SIGNATURE_HEADER := "x-lenso-webhook-signature"

  function WebhookHeaders(id: DeliveryId, eventId: Bytes, timestamp: Bytes, signature: Bytes): seq<Header> {
    [Header("content-type", Ascii("application/json")),
     Header(ID_HEADER, id),
     Header(EVENT_HEADER, eventId),
     Header(TIMESTAMP_HEADER, timestamp),
     Header(SIGNATURE_HEADER, Ascii("v1=") + signature)]
  }

  /** The first header of a name. */
  function HeaderValue(headers: seq<Header>, name: string): Option<Bytes> {
    if headers == [] then None
    else if headers[0].name == name then Some(headers[0].value)
    else HeaderValue(headers[1..], name)
  }

  /** The check a receiver makes, from the headers and the body it got and the shared key. */
  predicate SignatureChecks(hmac: (Bytes, Bytes) -> Digest, key: Bytes, headers: seq<Header>, body: Bytes) {
    var id, timestamp := HeaderValue(headers, ID_HEADER), HeaderValue(headers, TIMESTAMP_HEADER);
    id.Some? && timestamp.Some?
    && HeaderValue(headers, SIGNATURE_HEADER)
         == Some(Ascii("v1=") + HexOf(hmac(key, SignedBytes(id.value, timestamp.value, body))))
  }

  lemma HeadersAreFound(id: DeliveryId, eventId: Bytes, timestamp: Bytes, signature: Bytes)
    ensures var headers := WebhookHeaders(id, eventId, timestamp, signature);
      && |headers| == 5
      && HeaderValue(headers, "content-type") == Some(Ascii("application/json"))
      && HeaderValue(headers, "x-lenso-webhook-id") == Some(id)
      && HeaderValue(headers, "x-lenso-webhook-event-id") == Some(eventId)
      && HeaderValue(headers, "x-lenso-webhook-timestamp") == Some(timestamp)
      && HeaderValue(headers, "x-lenso-webhook-signature") == Some(Ascii("v1=") + signature)
  {
    var h := WebhookHeaders(id, eventId, timestamp, signature);
    var t := h[1..];
    var u := t[1..];
    var v := u[1..];
    var w := v[1..];
    assert t[0] == h[1] && u[0] == h[2] && v[0] == h[3] && w[0] == h[4];
    assert |h[0].name| == 12 && |ID_HEADER| == 18 && |EVENT_HEADER| == 24;
    assert |TIMESTAMP_HEADER| == |SIGNATURE_HEADER| == 25 && TIMESTAMP_HEADER[16] != SIGNATURE_HEADER[16];
    assert HeaderValue(v, SIGNATURE_HEADER) == HeaderValue(w, SIGNATURE_HEADER);
    assert HeaderValue(t, EVENT_HEADER) == HeaderValue(u, EVENT_HEADER);
    assert HeaderValue(t, TIMESTAMP_HEADER) == HeaderValue(v, TIMESTAMP_HEADER);
    assert HeaderValue(t, SIGNATURE_HEADER) == HeaderValue(v, SIGNATURE_HEADER);
  }

  /** A receiver accepts a body under the sent headers exactly when its MAC is that of the body that was signed. */
  lemma ReceiverAcceptsIffSameMac(hmac: (Bytes, Bytes) -> Digest, key: Bytes, id: DeliveryId, eventId: Bytes,
    timestamp: Bytes, payload: Bytes, body: Bytes)
    ensures var mac := hmac(key, SignedBytes(id, timestamp, payload));
      var headers := WebhookHeaders(id, eventId, timestamp, HexOf(mac));
      SignatureChecks(hmac, key, headers, body) <==> hmac(key, SignedBytes(id, timestamp, body)) == mac
  {
    var mac, got := hmac(key, SignedBytes(id, timestamp, payload)), hmac(key, SignedBytes(id, timestamp, body));
    HeadersAreFound(id, eventId, timestamp, HexOf(mac));
    if Ascii("v1=") + HexOf(got) == Ascii("v1=") + HexOf(mac) {
      assert (Ascii("v1=") + HexOf(got))[3..] == HexOf(got) && (Ascii("v1=") + HexOf(mac))[3..] == HexOf(mac);
      HexInjective(got, mac);
    }
  }
}
