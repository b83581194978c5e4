/**
 * The frame locator of jkRead (jkcmd.c:454-463): the BMS answer starts with
 * the JK signature 55 AA EB 90 (jkSign, jkcmd.c:293) and a little-endian
 * 16-bit word equal to the register group; the register data follows six
 * bytes after the start. Anything before the signature is skipped.
 */
module Locator {
  import opened Options
  import opened Bytes

  /** jkSign (jkcmd.c:293). */
  const JkSign: seq<bv8> := [0x55, 0xAA, 0xEB, 0x90]

  /** Signature plus group word. */
  const HeaderLen: nat := 6

  /** The signature starts at position i of s. */
  predicate SignAt(s: seq<bv8>, i: nat)
    requires i + 4 <= |s|
  {
    s[i..i + 4] == JkSign
  }

  /** The signature overlaps no shifted copy of itself: no proper suffix of it is a prefix of it. */
  lemma SignNoSelfOverlap()
    ensures forall d :: 1 <= d < 4 ==> JkSign[d] != JkSign[0]
    ensures JkSign[0] as nat + 256 * JkSign[1] as nat == 0xAA55
  {
  }

  /** At position i of s: the signature, then `group` as a little-endian 16-bit word. */
  predicate HeaderAt(s: seq<bv8>, i: nat, group: int)
    requires i + HeaderLen <= |s|
  {
    SignAt(s, i) && LeUnsigned(s[i + 4..i + HeaderLen]) == group
  }

  /**
   * A header is the four signature bytes followed by the uint16_t the source
   * reads at buf + i + 4, low byte first; so only a group below 0x10000 can
   * have one.
   */
  lemma HeaderAtBytes(s: seq<bv8>, i: nat, group: int)
    requires i + HeaderLen <= |s|
    ensures HeaderAt(s, i, group) <==> s[i..i + 4] == JkSign && s[i + 4] as int + 256 * s[i + 5] as int == group
    ensures HeaderAt(s, i, group) ==> 0 <= group < 0x1_0000
  {
    LeTwoBytes(s[i + 4..i + HeaderLen]);
  }

  /**
   * The scan from position i: the payload start after the first header at a
   * position p >= i with p < |s| - 6, the bound of the loop at jkcmd.c:454.
   */
  function LocateFrom(s: seq<bv8>, group: int, i: nat): (r: Option<nat>)
    ensures r.Some? ==> i + HeaderLen <= r.value < |s| && HeaderAt(s, r.value - HeaderLen, group)
    decreases |s| - i
  {
    if i + HeaderLen >= |s| then None
    else if HeaderAt(s, i, group) then Some(i + HeaderLen)
    else LocateFrom(s, group, i + 1)
  }

  /** Where the payload of the response for `group` starts in the captured bytes s, if anywhere. */
  function Locate(s: seq<bv8>, group: int): Option<nat> {
    LocateFrom(s, group, 0)
  }

  /**
   * The scan finds the least header position from i on (below |s| - 6), and
   * reports failure only when there is none.
   */
  lemma {:induction false} LocateFromIsFirst(s: seq<bv8>, group: int, i: nat)
    ensures LocateFrom(s, group, i).Some? ==>
      forall j :: i <= j < LocateFrom(s, group, i).value - HeaderLen ==> !HeaderAt(s, j, group)
    ensures LocateFrom(s, group, i).None? ==>
      forall j :: i <= j && j + HeaderLen < |s| ==> !HeaderAt(s, j, group)
    decreases |s| - i
  {
    if i + HeaderLen < |s| && !HeaderAt(s, i, group) {
      LocateFromIsFirst(s, group, i + 1);
    }
  }

  /** The whole-buffer form: the payload starts right after the first header, and a failed scan means there is no header. */
  lemma LocateIsFirst(s: seq<bv8>, group: int)
    ensures Locate(s, group).Some? ==>
      var p := Locate(s, group).value;
      HeaderLen <= p < |s| && HeaderAt(s, p - HeaderLen, group) &&
      forall j :: 0 <= j < p - HeaderLen ==> !HeaderAt(s, j, group)
    ensures Locate(s, group).None? ==>
      forall j :: 0 <= j && j + HeaderLen < |s| ==> !HeaderAt(s, j, group)
  {
    LocateFromIsFirst(s, group, 0);
  }

  /** The scan loop of jkRead over buf[..n]: returns the payload start (dataPtr) or nothing ("Invalid response"). */
  method FindFrame(buf: array<bv8>, n: nat, group: int) returns (r: Option<nat>)
    requires n <= buf.Length
    ensures r == Locate(buf[..n], group)
  {
    var i := 0;
    while i < n - 6
      invariant LocateFrom(buf[..n], group, i) == Locate(buf[..n], group)
      decreases n - i
    {
      assert buf[..n][i..i + 4] == buf[i..i + 4];
      assert buf[..n][i + 4..i + HeaderLen] == buf[i + 4..i + 6];
      if buf[i..i + 4] == JkSign && LeUnsigned(buf[i + 4..i + 6]) == group {
        return Some(i + 6);
      }
      i := i + 1;
    }
    return None;
  }

  /** Positions i..k-1 hold no header: the scan from i goes on as the scan from k. */
  lemma {:induction false} LocateSkips(s: seq<bv8>, group: int, i: nat, k: nat)
    requires i <= k && k + HeaderLen < |s|
    requires forall j :: i <= j < k ==> !HeaderAt(s, j, group)
    ensures LocateFrom(s, group, i) == LocateFrom(s, group, k)
    decreases k - i
  {
    if i < k {
      LocateSkips(s, group, i + 1, k);
    }
  }

  /**
   * Leading garbage that holds no header for the group is skipped, for any
   * group word below 0x5500 (the three groups are 1..3): no header can start
   * in the last five bytes of the garbage and run into the real one, because
   * the signature does not overlap itself and a word running into it would be
   * 0xAA55 or at least 0x5500. The payload is found right after the real
   * header.
   */
  lemma SkipsGarbage(garbage: seq<bv8>, group: nat, payload: seq<bv8>)
    requires group < 0x5500
    requires forall j :: 0 <= j && j + HeaderLen <= |garbage| ==> !HeaderAt(garbage, j, group)
    requires payload != []
    ensures Locate(garbage + JkSign + LeEncode(group, 2) + payload, group) == Some(|garbage| + HeaderLen)
  {
    var word := LeEncode(group, 2);
    var s := garbage + JkSign + word + payload;
    var g := |garbage|;
    assert s[g..g + 4] == JkSign;
    assert s[g + 4..g + HeaderLen] == word;
    LeDecodeEncode(group, 2);
    assert HeaderAt(s, g, group);
    SignNoSelfOverlap();
    forall j | 0 <= j < g
      ensures !HeaderAt(s, j, group)
    {
      if j + HeaderLen <= g {
        assert s[j..j + 4] == garbage[j..j + 4];
        assert s[j + 4..j + HeaderLen] == garbage[j + 4..j + HeaderLen];
        assert !HeaderAt(garbage, j, group);
      } else {
        NoHeaderRunsIntoSign(s, g, j, group);
      }
    }
    LocateSkips(s, group, 0, g);
  }

  /**
   * With the signature at g, no header for a group below 0x5500 starts in
   * the five positions before g: one starting at g - 3..g - 1 would need a
   * second signature overlapping the first, one at g - 4 would have the word
   * 0xAA55 and one at g - 5 a word of at least 0x5500.
   */
  lemma NoHeaderRunsIntoSign(s: seq<bv8>, g: nat, j: nat, group: int)
    requires g + 4 <= |s| && s[g..g + 4] == JkSign
    requires j < g < j + HeaderLen && j + HeaderLen <= |s| && group < 0x5500
    ensures !HeaderAt(s, j, group)
  {
    HeaderAtBytes(s, j, group);
    SignNoSelfOverlap();
    assert s[g] == JkSign[0] && s[g + 1] == JkSign[1];
    if j + 4 > g {
      assert s[j..j + 4][g - j] == s[g];
    }
  }

  /** A header in the last six bytes, with no payload after it, is not accepted (the loop stops before n - 6). */
  lemma HeaderWithoutPayloadRejected()
    ensures HeaderAt(JkSign + [0x01, 0x00], 0, 1)
    ensures Locate(JkSign + [0x01, 0x00], 1) == None
  {
    var s := JkSign + [0x01, 0x00];
    assert s[0..4] == JkSign;
    assert s[4..6] == [0x01, 0x00];
    assert [0x01, 0x00][1..] == [0x00] && [0x00][1..] == [];
    assert LeUnsigned([0x01, 0x00]) == 1;
  }
}
