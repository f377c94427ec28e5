/** The Pix BR Code: EMV fields closed by a checksum (cmd/server/pixsend.go:20-119).
    A character stands for one byte.  The trimmed and folded texts, and the amount as
    text, are arguments. */
module PixCode {
  import Crc16
  import opened Wrappers

  datatype Field = Field(id: string, value: string)

  // ------------------------------------------------------------------
  // Building
  // ------------------------------------------------------------------

  function Digit(d: nat): (c: char)
    requires d < 16
  {
    if d < 10 then ('0' as int + d) as char else ('A' as int + (d - 10)) as char
  }

  function DigitValue(c: char): Option<nat> {
    if '0' <= c <= '9' then Some(c as int - '0' as int)
    else if 'A' <= c <= 'F' then Some(c as int - 'A' as int + 10)
    else None
  }

  lemma DigitRoundTrip(d: nat)
    requires d < 16
    ensures DigitValue(Digit(d)) == Some(d)
  {
  }

  /** strconv.FormatInt in upper case. */
  function Text(n: nat, base: nat): (s: string)
    requires 2 <= base <= 16
    ensures |s| >= 1
    decreases n
  {
    if n < base then [Digit(n)] else Text(n / base, base) + [Digit(n % base)]
  }

  function LeftPad2(n: nat): (s: string)
    ensures |s| >= 2
  {
    if n < 10 then "0" + Text(n, 10) else Text(n, 10)
  }

  function Emv(f: Field): string {
    f.id + (LeftPad2(|f.value|) + f.value)
  }

  function EmvAll(fs: seq<Field>): string {
    if fs == [] then "" else Emv(fs[0]) + EmvAll(fs[1..])
  }

  function Truncate(s: string, n: nat): (t: string)
    ensures |t| <= n && t <= s
  {
    if |s| > n then s[..n] else s
  }

  function OrElse(s: string, fallback: string): string {
    if s == "" then fallback else s
  }

  /** Merchant account information: the scheme and the key. */
  function Account(key: string): seq<Field> {
    [Field("00", "br.gov.bcb.pix"), Field("01", key)]
  }

  function ShownTxid(txid: string): string {
    OrElse(Truncate(txid, 25), "***")
  }

  /** The fields before the checksum, in order.  No amount means none is fixed. */
  function Fields(key: string, name: string, city: string, amount: Option<string>, txid: string): seq<Field> {
    var a := [Field("00", "01")];
    var b := if amount.Some? then a + [Field("01", "12")] else a;
    var c := b + [Field("26", EmvAll(Account(key)))] + [Field("52", "0000")] + [Field("53", "986")];
    var d := if amount.Some? then c + [Field("54", amount.value)] else c;
    d + [Field("58", "BR")] + [Field("59", OrElse(Truncate(name, 25), "PIX"))]
    + [Field("60", OrElse(Truncate(city, 15), "BRASIL"))] + [Field("62", EmvAll([Field("05", ShownTxid(txid))]))]
  }

  /** The checksum of a text, as four digits. */
  function Checksum(s: string): (h: string)
    ensures |h| == 4
  {
    Hex4(Crc16.Crc(AsBytes(s)) as nat)
  }

  function AsBytes(s: string): (b: seq<bv8>)
    ensures |b| == |s|
  {
    seq(|s|, i requires 0 <= i < |s| => AsByte(s[i]))
  }

  function AsByte(c: char): bv8 {
    (c as int % 256) as bv8
  }

  function Hex4(n: nat): (h: string)
    ensures |h| == 4
  {
    [Digit(n / 4096 % 16), Digit(n / 256 % 16), Digit(n / 16 % 16), Digit(n % 16)]
  }

  function Code(key: string, name: string, city: string, amount: Option<string>, txid: string): string {
    var payload := EmvAll(Fields(key, name, city, amount, txid)) + "6304";
    payload + Checksum(payload)
  }

  // ------------------------------------------------------------------
  // Building, step by step
  // ------------------------------------------------------------------

  method EmvField(id: string, value: string) returns (s: string)
    ensures s == Emv(Field(id, value))
  {
    var digits := Text(|value|, 10);
    if |digits| < 2 {
      ShortText(|value|);
      digits := "0" + digits;
    } else {
      LongText(|value|);
    }
    s := id + (digits + value);
  }

  lemma ShortText(n: nat)
    requires |Text(n, 10)| < 2
    ensures n < 10
  {
  }

  lemma LongText(n: nat)
    requires |Text(n, 10)| >= 2
    ensures n >= 10
  {
  }

  lemma {:induction false} EmvAppend(a: seq<Field>, b: seq<Field>)
    ensures EmvAll(a + b) == EmvAll(a) + EmvAll(b)
  {
    if a == [] {
      assert a + b == b;
    } else {
      assert (a + b)[0] == a[0] && (a + b)[1..] == a[1..] + b;
      EmvAppend(a[1..], b);
    }
  }

  lemma EmvOne(f: Field)
    ensures EmvAll([f]) == Emv(f)
  {
    assert [f][1..] == [];
    assert Emv(f) + "" == Emv(f);
  }

  method AppendField(payload: string, id: string, value: string, ghost fs: seq<Field>) returns (out: string)
    requires payload == EmvAll(fs)
    ensures out == EmvAll(fs + [Field(id, value)])
  {
    var f := EmvField(id, value);
    EmvAppend(fs, [Field(id, value)]);
    EmvOne(Field(id, value));
    out := payload + f;
  }

  /** Zeros in front, up to four characters. */
  function ZeroPad(s: string): string
    decreases 4 - |s|
  {
    if |s| < 4 then ZeroPad("0" + s) else s
  }

  /** The checksum in upper case, padded to four digits. */
  method ChecksumText(crc: nat) returns (hex: string)
    requires crc < 0x1_0000
    ensures hex == Hex4(crc)
  {
    hex := Text(crc, 16);
    PadIsHex(crc);
    while |hex| < 4
      invariant ZeroPad(hex) == Hex4(crc)
      decreases 4 - |hex|
    {
      hex := "0" + hex;
    }
  }

  lemma DivideTwice(n: nat)
    ensures n / 16 / 16 == n / 256 && n / 256 / 16 == n / 4096
  {
  }

  lemma OneMoreDigit(n: nat)
    requires n >= 16
    ensures Text(n, 16) == Text(n / 16, 16) + [Digit(n % 16)]
  {
  }

  lemma TwoDigits(n: nat)
    requires 16 <= n < 256
    ensures Text(n, 16) == [Digit(n / 16 % 16), Digit(n % 16)]
    ensures Hex4(n)[..2] == "00"
  {
    OneMoreDigit(n);
  }

  lemma ThreeDigits(n: nat)
    requires 256 <= n < 4096
    ensures Text(n, 16) == [Digit(n / 256 % 16), Digit(n / 16 % 16), Digit(n % 16)]
    ensures Hex4(n)[..1] == "0"
  {
    DivideTwice(n);
    OneMoreDigit(n);
    OneMoreDigit(n / 16);
  }

  lemma FourDigits(n: nat)
    requires 4096 <= n < 0x1_0000
    ensures Text(n, 16) == Hex4(n)
  {
    DivideTwice(n);
    OneMoreDigit(n);
    OneMoreDigit(n / 16);
    OneMoreDigit(n / 256);
  }

  lemma PadIsHex(n: nat)
    requires n < 0x1_0000
    ensures ZeroPad(Text(n, 16)) == Hex4(n)
  {
    if n < 16 {
      PadOne(Digit(n));
    } else if n < 256 {
      TwoDigits(n);
      PadTwo(Text(n, 16));
    } else if n < 4096 {
      ThreeDigits(n);
      PadThree(Text(n, 16));
    } else {
      FourDigits(n);
    }
  }

  lemma PadThree(s: string)
    requires |s| == 3
    ensures ZeroPad(s) == "0" + s
  {
  }

  lemma PadTwo(s: string)
    requires |s| == 2
    ensures ZeroPad(s) == "00" + s
  {
    PadThree("0" + s);
    assert "0" + ("0" + s) == "00" + s;
  }

  lemma PadOne(c: char)
    ensures ZeroPad([c]) == "000" + [c]
  {
    PadTwo("0" + [c]);
    assert "00" + ("0" + [c]) == "000" + [c];
  }

  method BuildAccount(key: string) returns (mai: string)
    ensures mai == EmvAll(Account(key))
  {
    mai := AppendField("", "00", "br.gov.bcb.pix", []);
    assert [] + [Field("00", "br.gov.bcb.pix")] == [Field("00", "br.gov.bcb.pix")];
    mai := AppendField(mai, "01", key, [Field("00", "br.gov.bcb.pix")]);
    assert [Field("00", "br.gov.bcb.pix")] + [Field("01", key)] == Account(key);
  }

  method BuildData(txid: string) returns (data: string)
    ensures data == EmvAll([Field("05", txid)])
  {
    data := EmvField("05", txid);
    EmvOne(Field("05", txid));
  }

  /** The fields before the checksum, appended one by one. */
  method BuildPayload(key: string, name: string, city: string, amount: Option<string>, txid: string) returns (payload: string)
    ensures payload == EmvAll(Fields(key, name, city, amount, txid))
  {
    var shownName, shownCity, shownTxid := Truncate(name, 25), Truncate(city, 15), Truncate(txid, 25);
    if shownName == "" {
      shownName := "PIX";
    }
    if shownCity == "" {
      shownCity := "BRASIL";
    }
    if shownTxid == "" {
      shownTxid := "***";
    }
    var mai := BuildAccount(key);
    payload := EmvField("00", "01");
    EmvOne(Field("00", "01"));
    ghost var fs := [Field("00", "01")];
    if amount.Some? {
      payload := AppendField(payload, "01", "12", fs);
      fs := fs + [Field("01", "12")];
    }
    payload := AppendField(payload, "26", mai, fs);
    fs := fs + [Field("26", mai)];
    payload := AppendField(payload, "52", "0000", fs);
    fs := fs + [Field("52", "0000")];
    payload := AppendField(payload, "53", "986", fs);
    fs := fs + [Field("53", "986")];
    if amount.Some? {
      payload := AppendField(payload, "54", amount.value, fs);
      fs := fs + [Field("54", amount.value)];
    }
    payload := AppendField(payload, "58", "BR", fs);
    fs := fs + [Field("58", "BR")];
    payload := AppendField(payload, "59", shownName, fs);
    fs := fs + [Field("59", shownName)];
    payload := AppendField(payload, "60", shownCity, fs);
    fs := fs + [Field("60", shownCity)];
    var data := BuildData(shownTxid);
    payload := AppendField(payload, "62", data, fs);
  }

  method BuildPixBRCode(key: string, name: string, city: string, amount: Option<string>, txid: string) returns (code: string)
    ensures code == Code(key, name, city, amount, txid)
  {
    var payload := BuildPayload(key, name, city, amount, txid);
    payload := payload + "6304";
    var crc := Crc16.Crc16Ccitt(AsBytes(payload));
    var hex := ChecksumText(crc as nat);
    code := payload + hex;
  }

  // ------------------------------------------------------------------
  // Reading the fields back
  // ------------------------------------------------------------------

  /** The two decimal digits of a length. */
  function ReadLength(s: string): (n: Option<nat>)
    requires |s| >= 2
  {
    var a, b := DigitValue(s[0]), DigitValue(s[1]);
    if a.Some? && b.Some? && a.value < 10 && b.value < 10 then Some(10 * a.value + b.value) else None
  }

  /** The EMV rule: two characters of id, two digits of length, the value. */
  function Split(s: string): (fs: Option<seq<Field>>)
    decreases |s|
  {
    if s == "" then Some([])
    else if |s| < 4 then None
    else
      var n := ReadLength(s[2..4]);
      if n.None? || 4 + n.value > |s| then None
      else
        var rest := Split(s[4 + n.value..]);
        if rest.None? then None else Some([Field(s[..2], s[4..4 + n.value])] + rest.value)
  }

  predicate TwoLetterIds(fs: seq<Field>) {
    forall i :: 0 <= i < |fs| ==> |fs[i].id| == 2
  }

  predicate Short(fs: seq<Field>) {
    forall i :: 0 <= i < |fs| ==> |fs[i].value| <= 99
  }

  lemma LengthRoundTrip(n: nat)
    requires n <= 99
    ensures |LeftPad2(n)| == 2 && ReadLength(LeftPad2(n)) == Some(n)
  {
    if n >= 10 {
      assert Text(n, 10) == Text(n / 10, 10) + [Digit(n % 10)];
      assert Text(n / 10, 10) == [Digit(n / 10)];
      DigitRoundTrip(n / 10);
    }
    DigitRoundTrip(n % 10);
  }

  lemma SplitFirst(f: Field, rest: string, more: Option<seq<Field>>)
    requires |f.id| == 2 && |f.value| <= 99 && more == Split(rest)
    ensures Split(Emv(f) + rest) == if more.None? then None else Some([f] + more.value)
  {
    var s, n := Emv(f) + rest, |f.value|;
    LengthRoundTrip(n);
    assert s[..2] == f.id && s[2..4] == LeftPad2(n) && s[4..4 + n] == f.value && s[4 + n..] == rest;
  }

  /** Every value that is read has a length of two digits. */
  lemma {:induction false} SplitIsShort(s: string)
    ensures Split(s).Some? ==> Short(Split(s).value)
    decreases |s|
  {
    if |s| >= 4 {
      var n := ReadLength(s[2..4]);
      if n.Some? && 4 + n.value <= |s| {
        SplitIsShort(s[4 + n.value..]);
      }
    }
  }

  /** Splitting by the EMV rule gives back the fields that were joined, if and only if no
      value is longer than its two length digits can say. */
  lemma {:induction false} SplitJoinIff(fs: seq<Field>)
    requires TwoLetterIds(fs)
    ensures Split(EmvAll(fs)) == Some(fs) <==> Short(fs)
  {
    if Short(fs) {
      if fs != [] {
        SplitJoinIff(fs[1..]);
        SplitFirst(fs[0], EmvAll(fs[1..]), Split(EmvAll(fs[1..])));
        assert fs == [fs[0]] + fs[1..];
      }
    } else {
      SplitIsShort(EmvAll(fs));
    }
  }

  lemma AccountLength(key: string)
    ensures |EmvAll(Account(key))| == 20 + |LeftPad2(|key|)| + |key|
  {
    EmvOne(Field("01", key));
    EmvAppend([Field("00", "br.gov.bcb.pix")], [Field("01", key)]);
    EmvOne(Field("00", "br.gov.bcb.pix"));
    assert Account(key) == [Field("00", "br.gov.bcb.pix")] + [Field("01", key)];
    LengthRoundTrip(14);
  }

  /** The fields of a code, checksum included. */
  function AllFields(key: string, name: string, city: string, amount: Option<string>, txid: string): seq<Field> {
    var fs := Fields(key, name, city, amount, txid);
    fs + [Field("63", Checksum(EmvAll(fs) + "6304"))]
  }

  lemma CodeIsFields(key: string, name: string, city: string, amount: Option<string>, txid: string)
    ensures Code(key, name, city, amount, txid) == EmvAll(AllFields(key, name, city, amount, txid))
  {
    var fs := Fields(key, name, city, amount, txid);
    var check := Field("63", Checksum(EmvAll(fs) + "6304"));
    EmvAppend(fs, [check]);
    EmvOne(check);
    ChecksumField(EmvAll(fs), check.value);
  }

  lemma ChecksumField(payload: string, h: string)
    requires |h| == 4
    ensures payload + "6304" + h == payload + Emv(Field("63", h))
  {
    assert LeftPad2(4) == "0" + [Digit(4)] == "04";
    assert payload + "6304" + h == payload + ("63" + ("04" + h));
  }

  lemma TxidShort(txid: string)
    requires |txid| <= 25
    ensures |EmvAll([Field("05", txid)])| == 4 + |txid|
  {
    EmvOne(Field("05", txid));
    LengthRoundTrip(|txid|);
  }

  lemma OneMoreField(fs: seq<Field>, id: string, value: string)
    requires |id| == 2 && TwoLetterIds(fs)
    ensures TwoLetterIds(fs + [Field(id, value)])
    ensures Short(fs + [Field(id, value)]) <==> Short(fs) && |value| <= 99
  {
    var all := fs + [Field(id, value)];
    assert all[|fs|] == Field(id, value) && forall i :: 0 <= i < |fs| ==> all[i] == fs[i];
  }

  lemma FieldsShortIff(key: string, name: string, city: string, amount: Option<string>, txid: string)
    ensures TwoLetterIds(Fields(key, name, city, amount, txid))
    ensures Short(Fields(key, name, city, amount, txid))
            <==> |EmvAll(Account(key))| <= 99 && (amount.Some? ==> |amount.value| <= 99)
  {
    var a := [Field("00", "01")];
    OneMoreField(a, "01", "12");
    var b := if amount.Some? then a + [Field("01", "12")] else a;
    var account := Field("26", EmvAll(Account(key)));
    OneMoreField(b, account.id, account.value);
    OneMoreField(b + [account], "52", "0000");
    var c2 := b + [account] + [Field("52", "0000")];
    OneMoreField(c2, "53", "986");
    var c := c2 + [Field("53", "986")];
    if amount.Some? {
      OneMoreField(c, "54", amount.value);
    }
    var d := if amount.Some? then c + [Field("54", amount.value)] else c;
    OneMoreField(d, "58", "BR");
    var e := d + [Field("58", "BR")];
    var shownName, shownCity := OrElse(Truncate(name, 25), "PIX"), OrElse(Truncate(city, 15), "BRASIL");
    OneMoreField(e, "59", shownName);
    var f := e + [Field("59", shownName)];
    OneMoreField(f, "60", shownCity);
    TxidShort(ShownTxid(txid));
    OneMoreField(f + [Field("60", shownCity)], "62", EmvAll([Field("05", ShownTxid(txid))]));
  }

  lemma AccountShortIff(key: string)
    ensures |EmvAll(Account(key))| <= 99 <==> |key| <= 77
  {
    AccountLength(key);
    if |key| <= 99 {
      LengthRoundTrip(|key|);
    }
  }

  lemma AllFieldsShortIff(key: string, name: string, city: string, amount: Option<string>, txid: string)
    ensures TwoLetterIds(AllFields(key, name, city, amount, txid))
    ensures Short(AllFields(key, name, city, amount, txid)) <==> |key| <= 77 && (amount.Some? ==> |amount.value| <= 99)
  {
    var fs := Fields(key, name, city, amount, txid);
    FieldsShortIff(key, name, city, amount, txid);
    AccountShortIff(key);
    OneMoreField(fs, "63", Checksum(EmvAll(fs) + "6304"));
  }

  /** Splitting a code recovers every field, and then the key and the transaction id, if
      and only if the key has at most 77 bytes and the amount at most 99. */
  lemma CodeSplitsIff(key: string, name: string, city: string, amount: Option<string>, txid: string)
    ensures Split(Code(key, name, city, amount, txid)) == Some(AllFields(key, name, city, amount, txid))
            <==> |key| <= 77 && (amount.Some? ==> |amount.value| <= 99)
    ensures |key| <= 77 ==> Split(EmvAll(Account(key))) == Some(Account(key))
    ensures var id := ShownTxid(txid); Split(EmvAll([Field("05", id)])) == Some([Field("05", id)])
  {
    CodeIsFields(key, name, city, amount, txid);
    AllFieldsShortIff(key, name, city, amount, txid);
    SplitJoinIff(AllFields(key, name, city, amount, txid));
    SplitJoinIff(Account(key));
    SplitJoinIff([Field("05", ShownTxid(txid))]);
  }

  // ------------------------------------------------------------------
  // What a bank's reader finds
  // ------------------------------------------------------------------

  /** A text cut to what its field may hold, or what stands for none. */
  function Shown(s: string, most: nat, none: string): string {
    if |s| == 0 then none else if |s| <= most then s else s[..most]
  }

  lemma ShownIs(s: string, most: nat, none: string)
    ensures OrElse(Truncate(s, most), none) == Shown(s, most, none) || most == 0
  {
  }

  lemma FieldsAre(key: string, name: string, city: string, amount: Option<string>, txid: string, account: string, data: string)
    requires account == EmvAll(Account(key)) && data == EmvAll([Field("05", ShownTxid(txid))])
    ensures Fields(key, name, city, amount, txid)
         == [Field("00", "01")] + (if amount.Some? then [Field("01", "12")] else [])
            + [Field("26", account)] + [Field("52", "0000")] + [Field("53", "986")]
            + (if amount.Some? then [Field("54", amount.value)] else [])
            + [Field("58", "BR")] + [Field("59", Shown(name, 25, "PIX"))] + [Field("60", Shown(city, 15, "BRASIL"))]
            + [Field("62", data)]
  {
    ShownIs(name, 25, "PIX");
    ShownIs(city, 15, "BRASIL");
  }

  /** The fields of a code, as splitting it by the EMV rule finds them: the format; that the
      amount is fixed; the account; category and currency; the amount; the country; name,
      city and transaction, each cut to size or given a default; and the checksum. */
  lemma CodeReads(key: string, name: string, city: string, amount: Option<string>, txid: string)
    returns (account: string, data: string, crc: string)
    requires |key| <= 77 && (amount.Some? ==> |amount.value| <= 99)
    ensures Split(Code(key, name, city, amount, txid))
         == Some([Field("00", "01")] + (if amount.Some? then [Field("01", "12")] else [])
                 + [Field("26", account)] + [Field("52", "0000")] + [Field("53", "986")]
                 + (if amount.Some? then [Field("54", amount.value)] else [])
                 + [Field("58", "BR")] + [Field("59", Shown(name, 25, "PIX"))] + [Field("60", Shown(city, 15, "BRASIL"))]
                 + [Field("62", data)] + [Field("63", crc)])
    ensures Split(account) == Some([Field("00", "br.gov.bcb.pix"), Field("01", key)])
    ensures Split(data) == Some([Field("05", Shown(txid, 25, "***"))])
  {
    account, data := EmvAll(Account(key)), EmvAll([Field("05", ShownTxid(txid))]);
    crc := Checksum(EmvAll(Fields(key, name, city, amount, txid)) + "6304");
    CodeSplitsIff(key, name, city, amount, txid);
    FieldsAre(key, name, city, amount, txid, account, data);
    ShownIs(txid, 25, "***");
  }

  /** A field as a reader sees it: two characters of id, the length in decimal, the value. */
  lemma FieldLayout(f: Field)
    requires |f.id| == 2 && |f.value| <= 99
    ensures var s := Emv(f);
            && |s| == 4 + |f.value| && s[..2] == f.id && s[4..] == f.value
            && s[2] == "0123456789"[|f.value| / 10] && s[3] == "0123456789"[|f.value| % 10]
  {
    var n := |f.value|;
    LengthRoundTrip(n);
    if n >= 10 {
      assert Text(n, 10) == Text(n / 10, 10) + [Digit(n % 10)] && Text(n / 10, 10) == [Digit(n / 10)];
    }
    var s := Emv(f);
    assert s[2..4] == LeftPad2(n) && s[2] == LeftPad2(n)[0] && s[3] == LeftPad2(n)[1];
  }

  /** The checksum of a text: the CRC of its bytes, four hexadecimal digits, upper case. */
  lemma ChecksumLayout(s: string, k: nat)
    requires k < 4
    ensures var crc := Crc16.Crc(AsBytes(s)) as nat;
            var digit := (if k == 0 then crc / 4096 else if k == 1 then crc / 256 else if k == 2 then crc / 16 else crc) % 16;
            Checksum(s)[k] == "0123456789ABCDEF"[digit]
  {
  }

  // ------------------------------------------------------------------
  // The checksum
  // ------------------------------------------------------------------

  /** A reader's check: the last four characters are the checksum of the rest. */
  predicate Checks(code: string) {
    |code| >= 4 && code[|code| - 4..] == Checksum(code[..|code| - 4])
  }

  lemma CodeChecks(key: string, name: string, city: string, amount: Option<string>, txid: string)
    ensures Checks(Code(key, name, city, amount, txid))
  {
    var payload := EmvAll(Fields(key, name, city, amount, txid)) + "6304";
    assert (payload + Checksum(payload))[..|payload|] == payload;
  }

  lemma Hex4Injective(m: nat, n: nat)
    requires m < 0x1_0000 && n < 0x1_0000 && Hex4(m) == Hex4(n)
    ensures m == n
  {
    DigitRoundTrip(m / 4096 % 16);
    DigitRoundTrip(m / 256 % 16);
    DigitRoundTrip(m / 16 % 16);
    DigitRoundTrip(m % 16);
    DigitRoundTrip(n / 4096 % 16);
    DigitRoundTrip(n / 256 % 16);
    DigitRoundTrip(n / 16 % 16);
    DigitRoundTrip(n % 16);
    FromHexDigits(m);
    FromHexDigits(n);
  }

  lemma FromHexDigits(n: nat)
    requires n < 0x1_0000
    ensures n == 4096 * (n / 4096 % 16) + 256 * (n / 256 % 16) + 16 * (n / 16 % 16) + n % 16
  {
  }

  lemma BytesOfUpdate(s: string, k: nat, c: char)
    requires k < |s|
    ensures AsBytes(s[k := c])[k] == AsByte(c) && AsBytes(s)[k] == AsByte(s[k])
    ensures forall i :: 0 <= i < |s| && i != k ==> AsBytes(s[k := c])[i] == AsBytes(s)[i]
  {
  }

  lemma UpdateBeforeEnd(code: string, k: nat, c: char)
    requires k + 4 < |code|
    ensures var n := |code| - 4;
            code[k := c][..n] == code[..n][k := c] && code[k := c][n..] == code[n..]
  {
  }

  lemma SameNumber(m: bv16, n: bv16)
    requires m as nat == n as nat
    ensures m == n
  {
    var k := m as nat;
    assert k as bv16 == m;
    assert k as bv16 == n;
  }

  lemma DigitsDiffer(m: bv16, n: bv16)
    requires Hex4(m as nat) == Hex4(n as nat)
    ensures m == n
  {
    Hex4Injective(m as nat, n as nat);
    SameNumber(m, n);
  }

  lemma ChecksumChanges(payload: string, k: nat, c: char)
    requires k < |payload| && AsByte(c) != AsByte(payload[k])
    ensures Checksum(payload[k := c]) != Checksum(payload)
  {
    var s, t := AsBytes(payload), AsBytes(payload[k := c]);
    BytesOfUpdate(payload, k, c);
    Crc16.OneByteDetected(s, t, k);
    if Checksum(payload[k := c]) == Checksum(payload) {
      DigitsDiffer(Crc16.Crc(s), Crc16.Crc(t));
    }
  }

  /** A code that checks no longer does once any one of the characters before its checksum,
      which stand for bytes, is another. */
  lemma OneCharacterSeen(code: string, k: nat, c: char)
    requires Checks(code) && k + 4 < |code| && AsByte(c) != AsByte(code[k])
    ensures !Checks(code[k := c])
  {
    UpdateBeforeEnd(code, k, c);
    ChecksumChanges(code[..|code| - 4], k, c);
  }
}
