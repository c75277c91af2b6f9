/** Hardware vendor of a LAN client, from the first three octets of its MAC
    address (`Clients.mac_lookup`, `mac_lookup_short` and `mac_lookup_long`
    in ecmcli/commands/routers.py). */
module MacVendor {
  import opened Outcomes
  import opened Text
  import opened Hex

  /** An entry of the bundled vendor table: `[short name, long name]`. */
  datatype Vendor = Vendor(short: string, long: string)

  /** The vendor table, keyed by the integer value of a MAC prefix. */
  type MacDb = map<nat, Vendor>

  /** The entry index a lookup reads: 0 for the short name, 1 for the long one. */
  datatype NameForm = Short | Long

  /** The locally-administered bit of the first octet, as a bit of the 24-bit prefix. */
  const LocalAdminBit: nat := 0x20000

  /** `x & 0xffff` keeps the value modulo this. */
  const LowSixteen: nat := 0x10000

  function NameOf(v: Vendor, form: NameForm): string {
    match form
    case Short => v.short
    case Long => v.long
  }

  /** `''.join(mac.split(':')[:3])`: the text of the first three octets. */
  function PrefixDigits(mac: string): string {
    Concat(Take(Split(mac, ':'), 3))
  }

  /** `int(''.join(mac.split(':')[:3]), 16)`. */
  function MacPrefix(mac: string): (r: Result<nat>)
    ensures r.Ok? <==> |PrefixDigits(mac)| > 0 && AllHex(PrefixDigits(mac))
    ensures r.Err? ==> r.error == ValueError(PrefixDigits(mac))
    ensures r.Ok? ==> r.value < Pow16(|PrefixDigits(mac)|)
  {
    ParseHex(PrefixDigits(mac))
  }

  /** `p & 0x20000` is non-zero. */
  predicate LocallyAdministered(p: nat) {
    (p / LocalAdminBit) % 2 == 1
  }

  /** The table key a prefix is looked up under: the prefix itself, or its
      low 16 bits when the locally-administered bit is set and the prefix
      itself is not in the table. */
  function VendorKey(p: nat, db: MacDb): (key: nat)
    ensures key % LowSixteen == p % LowSixteen
    ensures key == p <==> !(LocallyAdministered(p) && p !in db)
    ensures key != p ==> key < LowSixteen
  {
    if LocallyAdministered(p) && p !in db then p % LowSixteen else p
  }

  /** `mac_db.get(key, [None, None])[idx]` for a parsed prefix. */
  function VendorName(p: nat, form: NameForm, db: MacDb): (r: Option<string>)
    ensures p in db ==> r == Some(NameOf(db[p], form))
    ensures p !in db && LocallyAdministered(p) && p % LowSixteen in db ==>
      r == Some(NameOf(db[p % LowSixteen], form))
    ensures p !in db && LocallyAdministered(p) && p % LowSixteen !in db ==> r == None
    ensures p !in db && !LocallyAdministered(p) ==> r == None
  {
    var key := VendorKey(p, db);
    if key in db then Some(NameOf(db[key], form)) else None
  }

  /** `Clients.mac_lookup(info, idx)` for a client whose `mac` is `mac`. */
  function MacLookup(mac: string, form: NameForm, db: MacDb): (r: Result<Option<string>>)
    ensures r.Ok? <==> MacPrefix(mac).Ok?
    ensures r.Err? ==> r.error == ValueError(PrefixDigits(mac))
    ensures r.Ok? ==> r.value == VendorName(MacPrefix(mac).value, form, db)
  {
    var p :- MacPrefix(mac);
    Ok(VendorName(p, form, db))
  }

  /** `Clients.mac_lookup_short`. */
  function MacLookupShort(mac: string, db: MacDb): Result<Option<string>> {
    MacLookup(mac, Short, db)
  }

  /** `Clients.mac_lookup_long`. */
  function MacLookupLong(mac: string, db: MacDb): Result<Option<string>> {
    MacLookup(mac, Long, db)
  }

  /** The short and the long lookups fail together, find a vendor together,
      and then name the same table entry. */
  lemma ShortAndLongAgree(mac: string, db: MacDb)
    ensures MacLookupShort(mac, db).Ok? <==> MacLookupLong(mac, db).Ok?
    ensures MacLookupShort(mac, db).Ok? ==>
      (MacLookupShort(mac, db).value.Some? <==> MacLookupLong(mac, db).value.Some?)
    ensures MacLookupShort(mac, db).Ok? && MacLookupShort(mac, db).value.Some? ==>
      exists key :: key in db && db[key].short == MacLookupShort(mac, db).value.value &&
        db[key].long == MacLookupLong(mac, db).value.value
  {
    if MacLookupShort(mac, db).Ok? && MacLookupShort(mac, db).value.Some? {
      var key := VendorKey(MacPrefix(mac).value, db);
      assert key in db;
    }
  }

  /** A MAC address written the usual way: two lower-case hex digits per
      octet, separated by colons. */
  function FormatMac(octets: seq<nat>): string
    requires forall i :: 0 <= i < |octets| ==> octets[i] < 256
  {
    Join(OctetTexts(octets), ':')
  }

  function OctetTexts(octets: seq<nat>): (parts: seq<string>)
    requires forall i :: 0 <= i < |octets| ==> octets[i] < 256
    ensures |parts| == |octets|
    ensures forall i :: 0 <= i < |octets| ==> parts[i] == HexString(octets[i], 2)
  {
    seq(|octets|, i requires 0 <= i < |octets| => HexString(octets[i], 2))
  }

  /** The prefix of a formatted MAC address is its first three octets read as
      one 24-bit number, so it lies below 2^24. */
  lemma MacPrefixOfFormatted(octets: seq<nat>)
    requires |octets| >= 3
    requires forall i :: 0 <= i < |octets| ==> octets[i] < 256
    ensures MacPrefix(FormatMac(octets)).Ok?
    ensures MacPrefix(FormatMac(octets)).value == octets[0] * 0x10000 + octets[1] * 0x100 + octets[2]
    ensures MacPrefix(FormatMac(octets)).value < 0x100_0000
  {
    var x, y, z := octets[0], octets[1], octets[2];
    var digits := HexString(x, 2) + HexString(y, 2) + HexString(z, 2);
    assert PrefixDigits(FormatMac(octets)) == digits by {
      PrefixDigitsOfFormatted(octets);
    }
    assert ParseHex(digits).Ok? && ParseHex(digits).value == x * 0x10000 + y * 0x100 + z
      && x * 0x10000 + y * 0x100 + z < 0x100_0000 by {
      ThreeOctetValue(x, y, z);
    }
  }

  /** The prefix text of a formatted address is its first three octet texts. */
  lemma PrefixDigitsOfFormatted(octets: seq<nat>)
    requires |octets| >= 3
    requires forall i :: 0 <= i < |octets| ==> octets[i] < 256
    ensures PrefixDigits(FormatMac(octets))
      == HexString(octets[0], 2) + HexString(octets[1], 2) + HexString(octets[2], 2)
  {
    var parts := OctetTexts(octets);
    SplitJoin(parts, ':');
    var a, b, c := parts[0], parts[1], parts[2];
    assert Take(parts, 3) == [a, b, c];
    assert [a, b, c][1..] == [b, c];
    assert [b, c][1..] == [c];
    assert [c][1..] == [];
    assert Concat([c]) == c + "";
    assert Concat([b, c]) == b + c;
    assert Concat([a, b, c]) == a + (b + c);
  }

  /** Six hex digits, two per octet, denote the octets as one big-endian number. */
  lemma ThreeOctetValue(x: nat, y: nat, z: nat)
    requires x < 256 && y < 256 && z < 256
    ensures var s := HexString(x, 2) + HexString(y, 2) + HexString(z, 2);
      ParseHex(s).Ok? && ParseHex(s).value == x * 0x10000 + y * 0x100 + z && x * 0x10000 + y * 0x100 + z < 0x100_0000
  {
    OctetText(x);
    OctetText(y);
    OctetText(z);
    ThreeTexts(HexString(x, 2), HexString(y, 2), HexString(z, 2), x, y, z);
    OctetsBound(x, y, z);
  }

  lemma OctetsBound(x: nat, y: nat, z: nat)
    requires x < 256 && y < 256 && z < 256
    ensures x * 0x10000 + y * 0x100 + z < 0x100_0000
  {
    assert x * 0x10000 <= 255 * 0x10000;
    assert y * 0x100 <= 255 * 0x100;
  }

  /** Three two-digit hex texts with values x, y and z parse as one number. */
  lemma ThreeTexts(a: string, b: string, c: string, x: nat, y: nat, z: nat)
    requires AllHex(a) && AllHex(b) && AllHex(c)
    requires |a| == 2 && |b| == 2 && |c| == 2
    requires HexValue(a) == x && HexValue(b) == y && HexValue(c) == z
    ensures ParseHex(a + b + c).Ok? && ParseHex(a + b + c).value == x * 0x10000 + y * 0x100 + z
  {
    AppendOctet(a, b);
    LastOctet(a + b, c, x * 256 + y, z);
    ShiftTwice(x, y, z);
  }

  /** Appending a last two-digit octet to a hex text with value v. */
  lemma LastOctet(front: string, c: string, v: nat, z: nat)
    requires AllHex(front) && AllHex(c) && |c| == 2
    requires HexValue(front) == v && HexValue(c) == z
    ensures ParseHex(front + c).Ok? && ParseHex(front + c).value == v * 256 + z
  {
    AppendOctet(front, c);
    ParseHexDigits(front + c);
  }

  lemma ShiftTwice(x: nat, y: nat, z: nat)
    ensures (x * 256 + y) * 256 + z == x * 0x10000 + y * 0x100 + z
  {
  }

  lemma OctetText(x: nat)
    requires x < 256
    ensures HexValue(HexString(x, 2)) == x
  {
    assert Pow16(2) == 256;
    HexRoundTrip(x, 2);
  }

  lemma AppendOctet(a: string, b: string)
    requires AllHex(a) && AllHex(b) && |b| == 2
    ensures AllHex(a + b) && HexValue(a + b) == HexValue(a) * 256 + HexValue(b)
  {
    assert Pow16(2) == 256;
    HexValueAppend(a, b);
  }

  /** Splitting a prefix into its first octet and its low 16 bits. */
  lemma PrefixParts(first: nat, low: nat)
    requires low < LowSixteen
    ensures (first * 0x10000 + low) % LowSixteen == low
    ensures LocallyAdministered(first * 0x10000 + low) <==> (first / 2) % 2 == 1
  {
    var q, b := first / 2, first % 2;
    assert first * 0x10000 + low == q * LocalAdminBit + (b * 0x10000 + low);
    assert (first * 0x10000 + low) / LocalAdminBit == q;
  }

  /** Looking up a formatted MAC address looks up its three-octet prefix. */
  lemma MacLookupOfFormatted(octets: seq<nat>, form: NameForm, db: MacDb)
    requires |octets| >= 3
    requires forall i :: 0 <= i < |octets| ==> octets[i] < 256
    ensures MacLookup(FormatMac(octets), form, db)
      == Ok(VendorName(octets[0] * 0x10000 + octets[1] * 0x100 + octets[2], form, db))
  {
    MacPrefixOfFormatted(octets);
  }

  /** The fallback the table relies on: a locally administered address (bit
      0x02 of the first octet set) whose own prefix is not in the table is
      looked up as if its first octet were zero. */
  lemma LocallyAdministeredFallsBack(octets: seq<nat>, form: NameForm, db: MacDb)
    requires |octets| >= 3
    requires forall i :: 0 <= i < |octets| ==> octets[i] < 256
    requires (octets[0] / 2) % 2 == 1
    requires octets[0] * 0x10000 + octets[1] * 0x100 + octets[2] !in db
    ensures MacLookup(FormatMac(octets), form, db) == MacLookup(FormatMac(octets[0 := 0]), form, db)
  {
    var x, y, z := octets[0], octets[1], octets[2];
    var low := y * 0x100 + z;
    var zeroed := octets[0 := 0];
    assert zeroed[0] == 0 && zeroed[1] == y && zeroed[2] == z;
    assert forall i :: 0 <= i < |zeroed| ==> zeroed[i] < 256 by {
      forall i | 0 <= i < |zeroed| ensures zeroed[i] < 256 {
        if i > 0 { assert zeroed[i] == octets[i]; }
      }
    }
    assert MacLookup(FormatMac(octets), form, db) == Ok(VendorName(x * 0x10000 + low, form, db)) by {
      MacLookupOfFormatted(octets, form, db);
    }
    assert MacLookup(FormatMac(zeroed), form, db) == Ok(VendorName(low, form, db)) by {
      MacLookupOfFormatted(zeroed, form, db);
      ZeroFirstOctet(y, z);
    }
    FallbackOnPrefix(x, low, form, db);
  }

  lemma ZeroFirstOctet(y: nat, z: nat)
    ensures 0 * 0x10000 + y * 0x100 + z == y * 0x100 + z
  {
  }

  /** The same fallback stated on prefixes. */
  lemma FallbackOnPrefix(x: nat, low: nat, form: NameForm, db: MacDb)
    requires low < LowSixteen
    requires (x / 2) % 2 == 1
    requires x * 0x10000 + low !in db
    ensures VendorName(x * 0x10000 + low, form, db) == VendorName(low, form, db)
  {
    PrefixParts(x, low);
    PrefixParts(0, low);
  }

  /** Without the locally-administered bit, the prefix is looked up as it is. */
  lemma UniversalAddressLookedUpDirectly(octets: seq<nat>, form: NameForm, db: MacDb)
    requires |octets| >= 3
    requires forall i :: 0 <= i < |octets| ==> octets[i] < 256
    requires (octets[0] / 2) % 2 == 0
    ensures var p := octets[0] * 0x10000 + octets[1] * 0x100 + octets[2];
      MacLookup(FormatMac(octets), form, db) == Ok(if p in db then Some(NameOf(db[p], form)) else None)
  {
    MacLookupOfFormatted(octets, form, db);
    PrefixParts(octets[0], octets[1] * 0x100 + octets[2]);
  }
}
