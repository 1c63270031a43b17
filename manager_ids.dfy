/** The `HubManagerId` value object and the canonical text form of the UUID it wraps. */
module ManagerIds {
  import opened Wrappers
  import opened Common

  /** `Long.toHexString`-style lower-case hex digit for a value below 16. */
  function HexChar(d: nat): char
    requires d < 16
  {
    if d < 10 then ('0' as int + d) as char else ('a' as int + d - 10) as char
  }

  /** The value of a lower-case hex digit (0 for any other character). */
  function DigitValue(c: char): nat {
    if '0' <= c <= '9' then c as int - '0' as int
    else if 'a' <= c <= 'f' then c as int - 'a' as int + 10
    else 0
  }

  function Pow16(n: nat): (p: nat)
    ensures p > 0
  {
    if n == 0 then 1 else 16 * Pow16(n - 1)
  }

  lemma {:induction false} Pow16Add(a: nat, b: nat)
    ensures Pow16(a + b) == Pow16(a) * Pow16(b)
  {
    if b > 0 {
      Pow16Add(a, b - 1);
      assert Pow16(a + b) == 16 * Pow16(a + b - 1);
    }
  }

  /** Thirty-two hex digits are exactly enough for a UUID. */
  lemma Pow16UuidWidth()
    ensures Pow16(32) == UUID_BOUND
  {
    assert Pow16(8) == 0x1_0000_0000;
    Pow16Add(8, 8);
    Pow16Add(16, 16);
  }

  /** The `n` low-order hex digits of `v`, most significant first, zero-padded. */
  function HexDigits(v: nat, n: nat): (s: string)
    ensures |s| == n
  {
    if n == 0 then [] else HexDigits(v / 16, n - 1) + [HexChar(v % 16)]
  }

  /** Reads a string of hex digits back as a number. */
  function HexValue(s: string): nat {
    if s == [] then 0 else 16 * HexValue(s[..|s| - 1]) + DigitValue(s[|s| - 1])
  }

  /** `UUID.toString`: 32 lower-case hex digits grouped 8-4-4-4-12 by dashes. */
  function UuidToString(u: Uuid): string {
    var h := HexDigits(u, 32);
    h[0..8] + "-" + h[8..12] + "-" + h[12..16] + "-" + h[16..20] + "-" + h[20..32]
  }

  /** The `HubManagerId` value object; equality is that of the wrapped UUID. */
  datatype HubManagerId = HubManagerId(id: Uuid) {

    /** `toUuid`: the wrapped UUID. */
    function ToUuid(): Uuid { id }

    /** `toString`: the wrapped UUID's string. */
    function ToString(): (s: string)
      ensures |s| == 36
    {
      UuidToString(id)
    }
  }

  /** `HubManagerId.of`: wraps a UUID, rejecting `null`. */
  function Of(id: Option<Uuid>): (r: Option<HubManagerId>)
    ensures r.Some? <==> id.Some?
    ensures r.Some? ==> r.value.ToUuid() == id.value
  {
    match id
    case None => None
    case Some(u) => Some(HubManagerId(u))
  }

  /** `of(u).toUuid() == u`, and every manager id is `of` its own UUID. */
  lemma OfToUuidRoundTrip(u: Uuid, m: HubManagerId)
    ensures Of(Some(u)).Some? && Of(Some(u)).value.ToUuid() == u
    ensures Of(Some(m.ToUuid())) == Some(m)
  {
  }

  /** Two manager ids are equal exactly when their UUIDs are. */
  lemma EqualIffSameUuid(a: HubManagerId, b: HubManagerId)
    ensures a == b <==> a.ToUuid() == b.ToUuid()
  {
  }

  /** Reading back the hex digits of a value that fits gives the value. */
  lemma {:induction false} HexRoundTrip(v: nat, n: nat)
    requires v < Pow16(n)
    ensures HexValue(HexDigits(v, n)) == v
  {
    if n > 0 {
      HexRoundTrip(v / 16, n - 1);
      var s := HexDigits(v, n);
      assert s[..|s| - 1] == HexDigits(v / 16, n - 1);
      assert s[|s| - 1] == HexChar(v % 16);
    }
  }

  /** The layout of `UUID.toString`: dashes at 8, 13, 18 and 23, hex digits elsewhere. */
  lemma UuidStringShape(u: Uuid)
    ensures |UuidToString(u)| == 36
    ensures forall i :: i in {8, 13, 18, 23} ==> UuidToString(u)[i] == '-'
  {
  }

  /** Different UUIDs have different strings, so `toString` loses no information. */
  lemma UuidToStringInjective(a: Uuid, b: Uuid)
    requires UuidToString(a) == UuidToString(b)
    ensures a == b
  {
    var ha, hb := HexDigits(a, 32), HexDigits(b, 32);
    var sa, sb := UuidToString(a), UuidToString(b);
    forall i | 0 <= i < 32
      ensures ha[i] == hb[i]
    {
      var p := if i < 8 then i else if i < 12 then i + 1 else if i < 16 then i + 2
               else if i < 20 then i + 3 else i + 4;
      assert sa[p] == ha[i];
      assert sb[p] == hb[i];
    }
    assert ha == hb;
    Pow16UuidWidth();
    HexRoundTrip(a, 32);
    HexRoundTrip(b, 32);
  }

  /** `HubManagerId.toString` identifies the manager id. */
  lemma ToStringInjective(a: HubManagerId, b: HubManagerId)
    requires a.ToString() == b.ToString()
    ensures a == b
  {
    UuidToStringInjective(a.id, b.id);
  }
}
