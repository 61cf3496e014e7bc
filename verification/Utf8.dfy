/** truncateBytes of internal/server/plugin_event.go: cutting a UTF-8 string to a number of
    bytes without splitting a character. UTF-8 is defined as in section 4 of RFC 3629. */
module Utf8 {
  type Bytes = seq<bv8>

  /** The loop's test: a byte of the form 10xxxxxx. */
  predicate Continuation(b: bv8) { b & 0xC0 == 0x80 }

  predicate Within(b: bv8, lo: bv8, hi: bv8) { lo <= b <= hi }

  /** How many bytes the character at the front of s takes; 0 when there is none. */
  function CharLength(s: Bytes): (n: nat)
    ensures n <= 4 && n <= |s|
  {
    if |s| >= 1 && s[0] <= 0x7F then 1
    else if |s| >= 2 && Within(s[0], 0xC2, 0xDF) && Within(s[1], 0x80, 0xBF) then 2
    else if |s| >= 3 && Within(s[2], 0x80, 0xBF) && ThreeByteHead(s[0], s[1]) then 3
    else if |s| >= 4 && Within(s[2], 0x80, 0xBF) && Within(s[3], 0x80, 0xBF) && FourByteHead(s[0], s[1]) then 4
    else 0
  }

  predicate ThreeByteHead(a: bv8, b: bv8) {
    || (a == 0xE0 && Within(b, 0xA0, 0xBF))
    || (Within(a, 0xE1, 0xEC) && Within(b, 0x80, 0xBF))
    || (a == 0xED && Within(b, 0x80, 0x9F))
    || (Within(a, 0xEE, 0xEF) && Within(b, 0x80, 0xBF))
  }

  predicate FourByteHead(a: bv8, b: bv8) {
    || (a == 0xF0 && Within(b, 0x90, 0xBF))
    || (Within(a, 0xF1, 0xF3) && Within(b, 0x80, 0xBF))
    || (a == 0xF4 && Within(b, 0x80, 0x8F))
  }

  predicate ValidUtf8(s: Bytes)
    decreases |s|
  {
    s == [] || (CharLength(s) > 0 && ValidUtf8(s[CharLength(s)..]))
  }

  /** A character starts with a byte that is no continuation and goes on with continuations only. */
  lemma CharShape(s: Bytes, i: nat)
    requires i < CharLength(s)
    ensures Continuation(s[i]) <==> i > 0
  {}

  /** The first byte settles how long a character is: no part of one is one. */
  lemma NoShorterChar(s: Bytes, k: nat)
    requires 0 < k < CharLength(s)
    ensures CharLength(s[..k]) == 0
  {}

  lemma SameChar(s: Bytes, k: nat)
    requires CharLength(s) > 0 && CharLength(s) <= k <= |s|
    ensures CharLength(s[..k]) == CharLength(s)
  {}

  /** In a valid string, a prefix is valid exactly where the next byte starts a character. */
  lemma {:induction false} BoundaryIff(s: Bytes, k: nat)
    requires ValidUtf8(s) && k < |s|
    ensures ValidUtf8(s[..k]) <==> !Continuation(s[k])
    decreases |s|
  {
    var n := CharLength(s);
    if k == 0 {
      CharShape(s, 0);
    } else if k < n {
      CharShape(s, k);
      NoShorterChar(s, k);
    } else {
      SameChar(s, k);
      assert s[..k][n..] == s[n..][..k - n];
      BoundaryIff(s[n..], k - n);
    }
  }

  /** Somewhere within three bytes back, a character starts. */
  lemma {:induction false} StartNearby(s: Bytes, k: nat) returns (j: nat)
    requires ValidUtf8(s) && k < |s|
    ensures j <= k <= j + 3 && !Continuation(s[j])
    decreases |s|
  {
    var n := CharLength(s);
    if k < n {
      CharShape(s, 0);
      j := 0;
    } else {
      var i := StartNearby(s[n..], k - n);
      j := n + i;
    }
  }

  /** Of a valid string: the longest valid prefix of at most n bytes, with at most 3 bytes
      given up for it. Of any string: a prefix, and whether anything was dropped. */
  method TruncateBytes(s: Bytes, n: nat) returns (r: Bytes, truncated: bool)
    ensures r <= s && |r| <= n
    ensures truncated <==> |s| > n
    ensures truncated <==> r != s
    ensures ValidUtf8(s) ==> ValidUtf8(r)
    ensures ValidUtf8(s) ==> forall k :: |r| < k <= n && k <= |s| ==> !ValidUtf8(s[..k])
    ensures ValidUtf8(s) && truncated ==> n - |r| <= 3
  {
    if |s| <= n {
      return s, false;
    }
    var cut := n;
    ghost var start := 0;
    if ValidUtf8(s) {
      start := StartNearby(s, n);
    }
    while cut > 0 && Continuation(s[cut])
      invariant 0 <= cut <= n && (ValidUtf8(s) ==> start <= cut)
      invariant forall k :: cut < k <= n ==> Continuation(s[k])
    {
      cut := cut - 1;
    }
    if ValidUtf8(s) {
      forall k | cut < k <= n ensures !ValidUtf8(s[..k]) {
        BoundaryIff(s, k);
      }
      BoundaryIff(s, cut);
      assert cut == 0 ==> s[..cut] == [];
    }
    return s[..cut], true;
  }
}
