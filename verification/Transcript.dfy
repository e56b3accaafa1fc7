/** The terminal transcript across remote reconnects (commands/tab_lifecycle.rs).

    A reconnect appends a notice and, when the transcript has grown past its cap,
    keeps its end from the next character boundary on. The transcript is a string,
    so its bytes are UTF-8 (section 3 of RFC 3629). */
module Transcript {
  type Byte = b: int | 0 <= b < 256

  const MAX_BYTES := 200_000
  const KEPT_BYTES := 180_000

  function EncodeChar(c: char): (bytes: seq<Byte>)
    ensures 1 <= |bytes| <= 4
  {
    var n := c as int;
    if n < 0x80 then [n]
    else if n < 0x800 then [0xC0 + n / 64, 0x80 + n % 64]
    else if n < 0x10000 then [0xE0 + n / 4096, 0x80 + n / 64 % 64, 0x80 + n % 64]
    else [0xF0 + n / 262144, 0x80 + n / 4096 % 64, 0x80 + n / 64 % 64, 0x80 + n % 64]
  }

  function Encode(s: string): seq<Byte> {
    if s == [] then [] else EncodeChar(s[0]) + Encode(s[1..])
  }

  ghost predicate IsUtf8(bytes: seq<Byte>) {
    exists s :: Encode(s) == bytes
  }

  predicate IsContinuation(b: Byte) {
    0x80 <= b < 0xC0
  }

  /** `is_char_boundary`. */
  predicate IsBoundary(bytes: seq<Byte>, i: nat) {
    i == 0 || i == |bytes| || (i < |bytes| && !IsContinuation(bytes[i]))
  }

  lemma OnlyTheFirstByteStarts(c: char)
    ensures !IsContinuation(EncodeChar(c)[0])
    ensures forall k :: 1 <= k < |EncodeChar(c)| ==> IsContinuation(EncodeChar(c)[k])
  {
  }

  lemma {:induction false} EncodeOfSum(s: string, t: string)
    ensures Encode(s + t) == Encode(s) + Encode(t)
    decreases |s|
  {
    if s == [] {
      assert s + t == t;
    } else {
      EncodeOfSum(s[1..], t);
      assert (s + t)[1..] == s[1..] + t;
    }
  }

  /** From every position a character boundary is at most three bytes away, and
      what follows it is text again. */
  lemma {:induction false} BoundaryIsNear(s: string, cut: nat) returns (k: nat, at: nat)
    requires cut <= |Encode(s)|
    ensures k <= |s| && cut <= at <= cut + 3 && at <= |Encode(s)|
    ensures Encode(s)[at..] == Encode(s[k..]) && IsBoundary(Encode(s), at)
    ensures forall i :: cut <= i < at ==> !IsBoundary(Encode(s), i)
    decreases |s|
  {
    if cut == 0 {
      k, at := 0, 0;
      assert s[0..] == s && Encode(s)[0..] == Encode(s);
    } else {
      var head, tail := EncodeChar(s[0]), Encode(s[1..]);
      assert Encode(s) == head + tail;
      OnlyTheFirstByteStarts(s[0]);
      if cut < |head| {
        k, at := 1, |head|;
        assert Encode(s)[at..] == tail;
        StartsWithABoundary(s[1..]);
      } else {
        k, at := BoundaryIsNear(s[1..], cut - |head|);
        assert s[1..][k..] == s[k + 1..];
        assert Encode(s)[|head| + at..] == tail[at..];
        BoundaryShifts(head, s[1..], at);
        forall i | cut <= i < |head| + at ensures !IsBoundary(Encode(s), i) {
          BoundaryShifts(head, s[1..], i - |head|);
        }
        k, at := k + 1, |head| + at;
      }
    }
  }

  lemma StartsWithABoundary(s: string)
    ensures s != [] ==> Encode(s) != [] && !IsContinuation(Encode(s)[0])
  {
  }

  lemma BoundaryShifts(head: seq<Byte>, s: string, i: nat)
    requires head != [] && i <= |Encode(s)|
    ensures IsBoundary(head + Encode(s), |head| + i) <==> IsBoundary(Encode(s), i)
  {
  }

  // ----- one reconnect

  /** The first boundary at or after `cut`. */
  function BoundaryFrom(bytes: seq<Byte>, cut: nat): (at: nat)
    requires cut <= |bytes|
    ensures cut <= at <= |bytes|
    decreases |bytes| - cut
  {
    if IsBoundary(bytes, cut) then cut else BoundaryFrom(bytes, cut + 1)
  }

  /** The two texts a reconnect adds: one between the old transcript and the new,
      and one that says a connection is being made. */
  datatype Texts = Texts(separator: string, notice: string)

  function WithNotice(texts: Texts, transcript: seq<Byte>): seq<Byte> {
    (if transcript == [] then [] else transcript + Encode(texts.separator)) + Encode(texts.notice)
  }

  function Capped(bytes: seq<Byte>): seq<Byte> {
    if |bytes| <= MAX_BYTES then bytes else bytes[BoundaryFrom(bytes, |bytes| - KEPT_BYTES)..]
  }

  function Reconnected(texts: Texts, transcript: seq<Byte>): seq<Byte> {
    Capped(WithNotice(texts, transcript))
  }

  /** Moves the cut one byte at a time. */
  method NoteReconnect(texts: Texts, transcript: seq<Byte>) returns (next: seq<Byte>)
    ensures next == Reconnected(texts, transcript)
  {
    next := transcript;
    if next != [] {
      next := next + Encode(texts.separator);
    }
    next := next + Encode(texts.notice);
    assert next == WithNotice(texts, transcript);
    if |next| > MAX_BYTES {
      var cut := |next| - KEPT_BYTES;
      while cut < |next| && !IsBoundary(next, cut)
        invariant |next| - KEPT_BYTES <= cut <= |next|
        invariant BoundaryFrom(next, |next| - KEPT_BYTES) == BoundaryFrom(next, cut)
      {
        cut := cut + 1;
      }
      next := next[cut..];
    }
  }

  lemma {:induction false} FirstBoundaryIs(bytes: seq<Byte>, cut: nat, at: nat)
    requires cut <= at <= |bytes| && IsBoundary(bytes, at)
    requires forall i :: cut <= i < at ==> !IsBoundary(bytes, i)
    ensures BoundaryFrom(bytes, cut) == at
    decreases at - cut
  {
    if cut < at {
      assert !IsBoundary(bytes, cut);
      FirstBoundaryIs(bytes, cut + 1, at);
    }
  }

  lemma SuffixIsText(s: string, cut: nat)
    requires cut <= |Encode(s)|
    ensures var at := BoundaryFrom(Encode(s), cut);
            at <= cut + 3 && IsUtf8(Encode(s)[at..])
  {
    var k, at := BoundaryIsNear(s, cut);
    FirstBoundaryIs(Encode(s), cut, at);
    assert Encode(s[k..]) == Encode(s)[at..];
  }

  /** A cut leaves UTF-8, a suffix of what was there, and at most three bytes less
      than it was to keep. */
  lemma CutIsText(bytes: seq<Byte>)
    requires IsUtf8(bytes)
    ensures IsUtf8(Capped(bytes)) && |Capped(bytes)| <= MAX_BYTES
    ensures |Capped(bytes)| <= |bytes| && Capped(bytes) == bytes[|bytes| - |Capped(bytes)|..]
    ensures |bytes| > MAX_BYTES ==> KEPT_BYTES - 3 <= |Capped(bytes)| <= KEPT_BYTES
  {
    var s :| Encode(s) == bytes;
    if |bytes| > MAX_BYTES {
      SuffixIsText(s, |bytes| - KEPT_BYTES);
    } else {
      assert bytes[0..] == bytes;
    }
  }

  lemma NoticeIsText(texts: Texts, transcript: seq<Byte>)
    requires IsUtf8(transcript)
    ensures IsUtf8(WithNotice(texts, transcript))
  {
    var s :| Encode(s) == transcript;
    if transcript == [] {
      assert WithNotice(texts, transcript) == Encode(texts.notice);
    } else {
      EncodeOfSum(s, texts.separator);
      EncodeOfSum(s + texts.separator, texts.notice);
      assert Encode(s + texts.separator + texts.notice) == WithNotice(texts, transcript);
    }
  }

  // ----- any number of reconnects

  function After(texts: Texts, transcript: seq<Byte>, reconnects: nat): seq<Byte> {
    if reconnects == 0 then transcript else Reconnected(texts, After(texts, transcript, reconnects - 1))
  }

  /** After any number of reconnects the transcript is UTF-8; from the first one on
      it is within the cap, however long it was before. */
  lemma {:induction false} TranscriptStaysText(texts: Texts, transcript: seq<Byte>, reconnects: nat)
    requires IsUtf8(transcript)
    ensures IsUtf8(After(texts, transcript, reconnects))
    ensures reconnects > 0 || |transcript| <= MAX_BYTES ==> |After(texts, transcript, reconnects)| <= MAX_BYTES
  {
    if reconnects > 0 {
      TranscriptStaysText(texts, transcript, reconnects - 1);
      NoticeIsText(texts, After(texts, transcript, reconnects - 1));
      CutIsText(WithNotice(texts, After(texts, transcript, reconnects - 1)));
    }
  }

  /** Each reconnect keeps the end of what was there with its notice: all of it, or
      the last 179997 to 180000 bytes. */
  lemma EachReconnectKeepsTheEnd(texts: Texts, transcript: seq<Byte>, reconnects: nat)
    requires IsUtf8(transcript)
    ensures var full := WithNotice(texts, After(texts, transcript, reconnects));
            var next := After(texts, transcript, reconnects + 1);
            && |next| <= |full| && next == full[|full| - |next|..]
            && (if |full| <= MAX_BYTES then next == full else KEPT_BYTES - 3 <= |next| <= KEPT_BYTES)
  {
    TranscriptStaysText(texts, transcript, reconnects);
    NoticeIsText(texts, After(texts, transcript, reconnects));
    CutIsText(WithNotice(texts, After(texts, transcript, reconnects)));
  }
}
