/** The telemetry record: its rendering into the 256-byte stack buffer with
    `snprintk`, the clamp of the published length, and a reader for the record. */
module Telemetry {
  import opened Wrappers
  import opened CInt
  import opened Text

  /** `sizeof(mqtt_buf)`. */
  const BufSize: nat := 256
  /** The longest payload ever handed to the transport. */
  const MaxPayload: nat := 255

  /** The contents of `char mqtt_buf[256]`. */
  type Buffer = s: CString | |s| == 256 witness seq(256, _ => '\0')

  /** The literal pieces of the format string, between its conversions. */
  const TagOpen: CString := "{\"tag\":\""
  const ChannelKey: CString := "\",\"channel\":"
  const VBusKey: CString := ",\"v_bus_mv\":"
  const IBusKey: CString := ",\"i_bus_ma\":"
  const TempKey: CString := ", \"temp_c\":"
  const Close: CString := "}"

  /** The five arguments of the format: `%s`, `%u`, `%d`, `%d`, `%d`. */
  datatype Record = Record(tag: CString, channel: int, vBusMv: int, iBusMa: int, tempC: int)

  function Min(a: int, b: int): int {
    if a <= b then a else b
  }

  /** The full text `snprintk` would produce with unlimited room. The tag is
      copied verbatim up to its NUL, with no escaping. */
  function Render(r: Record): (s: CString)
    ensures TagOpen + CStr(r.tag) <= s && s[|s| - 1] == '}'
  {
    TagOpen + (CStr(r.tag) + (ChannelKey + (Unsigned(r.channel) + (VBusKey + (Decimal(r.vBusMv)
      + (IBusKey + (Decimal(r.iBusMa) + (TempKey + (Decimal(r.tempC) + Close)))))))))
  }

  /** Consumes a literal piece. */
  function Expect(lit: CString, s: CString): (rest: Option<CString>)
    ensures rest.Some? <==> lit <= s
    ensures rest.Some? ==> s == lit + rest.value
  {
    if lit <= s then Some(s[|lit|..]) else None
  }

  /** Consumes one numeric field: the longest run of digits and minus signs,
      which must read as a decimal integer. */
  function TakeNumber(s: CString): Option<(int, CString)> {
    var k := Span(s, NumChar);
    var n :- ParseDecimal(s[..k]);
    Some((n, s[k..]))
  }

  /** Consumes a key followed by its numeric value. */
  function Field(key: CString, s: CString): Option<(int, CString)> {
    var rest :- Expect(key, s);
    TakeNumber(rest)
  }

  /** Reads the four numeric fields and the closing brace that follow the tag. */
  function UnrenderFields(s: CString): Option<(int, int, int, int)> {
    var ch :- Field(ChannelKey, s);
    var v :- Field(VBusKey, ch.1);
    var i :- Field(IBusKey, v.1);
    var t :- Field(TempKey, i.1);
    var end :- Expect(Close, t.1);
    if |end| == 0 then Some((ch.0, v.0, i.0, t.0)) else None
  }

  /** Reads a complete record back; the tag extends to the first double quote. */
  function Unrender(s: CString): Option<Record> {
    var s1 :- Expect(TagOpen, s);
    var k := Span(s1, NonQuote);
    var f :- UnrenderFields(s1[k..]);
    Some(Record(s1[..k], f.0, f.1, f.2, f.3))
  }

  lemma ExpectConcat(lit: CString, rest: CString)
    ensures Expect(lit, lit + rest) == Some(rest)
  {
  }

  lemma FieldConcat(key: CString, x: int, rest: CString)
    requires |rest| > 0 && !IsNumChar(rest[0])
    ensures Field(key, key + (Decimal(x) + rest)) == Some((x, rest))
  {
    ExpectConcat(key, Decimal(x) + rest);
    var d := Decimal(x);
    SpanOfConcat(d, rest, NumChar);
    assert (d + rest)[..|d|] == d;
    assert (d + rest)[|d|..] == rest;
    DecimalRoundTrip(x);
  }

  lemma UnsignedIsDecimal(x: int)
    requires 0 <= x < TWO_32
    ensures Unsigned(x) == Decimal(x)
  {
  }

  lemma UnrenderFieldsRoundTrip(ch: int, v: int, i: int, t: int)
    ensures UnrenderFields(ChannelKey + (Decimal(ch) + (VBusKey + (Decimal(v)
              + (IBusKey + (Decimal(i) + (TempKey + (Decimal(t) + Close))))))))
            == Some((ch, v, i, t))
  {
    FieldConcat(TempKey, t, Close);
    FieldConcat(IBusKey, i, TempKey + (Decimal(t) + Close));
    FieldConcat(VBusKey, v, IBusKey + (Decimal(i) + (TempKey + (Decimal(t) + Close))));
    FieldConcat(ChannelKey, ch, VBusKey + (Decimal(v) + (IBusKey + (Decimal(i) + (TempKey + (Decimal(t) + Close))))));
    ExpectConcat(Close, []);
    assert Close + [] == Close;
  }

  /** Every record whose tag is a C string without a double quote, and whose
      channel number fits `%u`, is read back exactly from its rendering. */
  lemma RenderRoundTrip(r: Record)
    requires NUL !in r.tag && '"' !in r.tag
    requires 0 <= r.channel < TWO_32
    ensures Unrender(Render(r)) == Some(r)
  {
    UnsignedIsDecimal(r.channel);
    var fields := ChannelKey + (Decimal(r.channel) + (VBusKey + (Decimal(r.vBusMv)
      + (IBusKey + (Decimal(r.iBusMa) + (TempKey + (Decimal(r.tempC) + Close)))))));
    UnrenderFieldsRoundTrip(r.channel, r.vBusMv, r.iBusMa, r.tempC);
    var s1 := r.tag + fields;
    assert Render(r) == TagOpen + s1;
    ExpectConcat(TagOpen, s1);
    assert forall i :: 0 <= i < |r.tag| ==> InClass(r.tag[i], NonQuote) by {
      forall i | 0 <= i < |r.tag| ensures r.tag[i] != '"' {
        assert r.tag[i] in r.tag;
      }
    }
    SpanOfConcat(r.tag, fields, NonQuote);
    assert s1[..|r.tag|] == r.tag;
    assert s1[|r.tag|..] == fields;
  }

  /** The number of double quotes in a text. */
  function Quotes(s: seq<char>): nat {
    if |s| == 0 then 0 else Quotes(s[..|s| - 1]) + (if s[|s| - 1] == '"' then 1 else 0)
  }

  lemma {:induction false} QuotesAppend(a: seq<char>, b: seq<char>)
    ensures Quotes(a + b) == Quotes(a) + Quotes(b)
    decreases |b|
  {
    if |b| == 0 {
      assert a + b == a;
    } else {
      assert (a + b)[..|a + b| - 1] == a + b[..|b| - 1];
      QuotesAppend(a, b[..|b| - 1]);
    }
  }

  lemma {:induction false} QuoteFree(s: seq<char>)
    requires '"' !in s
    ensures Quotes(s) == 0
  {
    if |s| > 0 {
      assert s[|s| - 1] in s;
      assert forall i :: 0 <= i < |s| - 1 ==> s[..|s| - 1][i] == s[i];
      QuoteFree(s[..|s| - 1]);
    }
  }

  lemma {:induction false} QuoteAt(s: seq<char>, j: nat)
    requires j < |s| && s[j] == '"'
    ensures Quotes(s) >= 1
  {
    if j < |s| - 1 {
      assert s[..|s| - 1][j] == s[j];
      QuoteAt(s[..|s| - 1], j);
    }
  }

  lemma QuoteFreeNumber(d: seq<char>)
    requires forall i :: 0 <= i < |d| ==> IsNumChar(d[i])
    ensures Quotes(d) == 0
  {
    assert '"' !in d;
    QuoteFree(d);
  }

  /** A key is punctuation around a quoted name; only the punctuation counts. */
  lemma KeyQuotesOf(key: CString, pre: seq<char>, name: seq<char>, post: seq<char>)
    requires key == pre + name + post && '"' !in name
    ensures Quotes(key) == Quotes(pre) + Quotes(post)
  {
    QuotesAppend(pre + name, post);
    QuotesAppend(pre, name);
    QuoteFree(name);
  }

  lemma PunctuationQuotes()
    ensures Quotes(['"', ':']) == 1 && Quotes(['"', ',', '"']) == 2
    ensures Quotes([',', '"']) == 1 && Quotes([',', ' ', '"']) == 1
  {
    var colon: seq<char> := ['"', ':'];
    assert colon[..1] == ['"'] && colon[..1][..0] == [];
    var open3: seq<char> := ['"', ',', '"'];
    assert open3[..2] == ['"', ','] && open3[..2][..1] == ['"'] && open3[..2][..1][..0] == [];
    var open2: seq<char> := [',', '"'];
    assert open2[..1] == [','] && open2[..1][..0] == [];
    var openSp: seq<char> := [',', ' ', '"'];
    assert openSp[..2] == [',', ' '] && openSp[..2][..1] == [','] && openSp[..2][..1][..0] == [];
  }

  lemma ChannelKeyQuotes()
    ensures Quotes(ChannelKey) == 3
  {
    PunctuationQuotes();
    KeyQuotesOf(ChannelKey, ['"', ',', '"'], "channel", ['"', ':']);
  }

  lemma ReadingKeyQuotes()
    ensures Quotes(VBusKey) == 2 && Quotes(IBusKey) == 2
  {
    PunctuationQuotes();
    KeyQuotesOf(VBusKey, [',', '"'], "v_bus_mv", ['"', ':']);
    KeyQuotesOf(IBusKey, [',', '"'], "i_bus_ma", ['"', ':']);
  }

  lemma TempKeyQuotes()
    ensures Quotes(TempKey) == 2 && Quotes(Close) == 0
  {
    PunctuationQuotes();
    KeyQuotesOf(TempKey, [',', ' ', '"'], "temp_c", ['"', ':']);
    assert Close[1..] == [];
  }

  /** The quotes in each key of the record's text. */
  lemma KeyQuotes()
    ensures Quotes(ChannelKey) == 3 && Quotes(VBusKey) == 2 && Quotes(IBusKey) == 2
    ensures Quotes(TempKey) == 2 && Quotes(Close) == 0
  {
    ChannelKeyQuotes();
    ReadingKeyQuotes();
    TempKeyQuotes();
  }

  /** A field the reader accepts holds its key's quotes and no others. */
  lemma FieldQuotes(key: CString, s: CString)
    requires Field(key, s).Some?
    ensures Quotes(s) == Quotes(key) + Quotes(Field(key, s).value.1)
  {
    var rest := Expect(key, s).value;
    var k := Span(rest, NumChar);
    assert s == key + rest && rest == rest[..k] + rest[k..];
    QuotesAppend(key, rest);
    QuotesAppend(rest[..k], rest[k..]);
    QuoteFreeNumber(rest[..k]);
  }

  /** Whatever the reader accepts after the tag holds exactly nine quotes:
      three in the channel key and two in each other key. */
  lemma FieldsQuotes(s: CString)
    ensures UnrenderFields(s).Some? ==> Quotes(s) == 9
  {
    if UnrenderFields(s).Some? {
      KeyQuotes();
      var ch := Field(ChannelKey, s).value;
      FieldQuotes(ChannelKey, s);
      var v := Field(VBusKey, ch.1).value;
      FieldQuotes(VBusKey, ch.1);
      var i := Field(IBusKey, v.1).value;
      FieldQuotes(IBusKey, v.1);
      var t := Field(TempKey, i.1).value;
      FieldQuotes(TempKey, i.1);
      assert t.1 == Close + Expect(Close, t.1).value;
      assert t.1 == Close;
    }
  }

  /** The tag is not escaped, so a tag holding a double quote makes the record
      unreadable: the reader's tag ends at the first quote, and what follows
      holds more quotes than the keys after a tag can. */
  lemma QuotedTagNotRecovered(r: Record)
    requires '"' in CStr(r.tag)
    ensures Unrender(Render(r)).None?
  {
    var fields := ChannelKey + (Unsigned(r.channel) + (VBusKey + (Decimal(r.vBusMv)
      + (IBusKey + (Decimal(r.iBusMa) + (TempKey + (Decimal(r.tempC) + Close)))))));
    KeyQuotes();
    RenderedFieldsQuotes(ChannelKey, Unsigned(r.channel), VBusKey, Decimal(r.vBusMv), IBusKey,
                         Decimal(r.iBusMa), TempKey, Decimal(r.tempC), Close);
    var s1 := CStr(r.tag) + fields;
    assert Render(r) == TagOpen + s1;
    ExpectConcat(TagOpen, s1);
    QuotedPrefixUnreadable(CStr(r.tag), fields);
  }

  /** After a quote inside the tag, the reader sees at least ten quotes where
      the fields it accepts hold nine. */
  lemma QuotedPrefixUnreadable(t: CString, fields: CString)
    requires '"' in t && Quotes(fields) == 9
    ensures UnrenderFields((t + fields)[Span(t + fields, NonQuote)..]).None?
  {
    var s1 := t + fields;
    var k := Span(s1, NonQuote);
    var j :| 0 <= j < |t| && t[j] == '"';
    assert s1[j] == '"';
    assert k <= j;
    assert s1[k..] == t[k..] + fields;
    QuotesAppend(t[k..], fields);
    QuoteAt(t[k..], j - k);
    if UnrenderFields(s1[k..]).Some? {
      FieldsQuotes(s1[k..]);
      assert false;
    }
  }

  /** The fields after the tag hold only the keys' quotes. */
  lemma RenderedFieldsQuotes(k1: CString, u: CString, k2: CString, dv: CString, k3: CString, di: CString,
                             k4: CString, dt: CString, k5: CString)
    requires forall i :: 0 <= i < |u| ==> IsNumChar(u[i])
    requires forall i :: 0 <= i < |dv| ==> IsNumChar(dv[i])
    requires forall i :: 0 <= i < |di| ==> IsNumChar(di[i])
    requires forall i :: 0 <= i < |dt| ==> IsNumChar(dt[i])
    ensures Quotes(k1 + (u + (k2 + (dv + (k3 + (di + (k4 + (dt + k5))))))))
         == Quotes(k1) + Quotes(k2) + Quotes(k3) + Quotes(k4) + Quotes(k5)
  {
    NumberFieldQuotes(k4, dt, k5);
    NumberFieldQuotes(k3, di, k4 + (dt + k5));
    NumberFieldQuotes(k2, dv, k3 + (di + (k4 + (dt + k5))));
    NumberFieldQuotes(k1, u, k2 + (dv + (k3 + (di + (k4 + (dt + k5))))));
  }

  /** A key followed by a number holds only the key's quotes. */
  lemma NumberFieldQuotes(key: CString, d: CString, rest: CString)
    requires forall i :: 0 <= i < |d| ==> IsNumChar(d[i])
    ensures Quotes(key + (d + rest)) == Quotes(key) + Quotes(rest)
  {
    QuoteFreeNumber(d);
    QuotesAppend(d, rest);
    QuotesAppend(key, d + rest);
  }

  /** A record for a channel number up to 256 and 32-bit readings is at most
      92 bytes longer than its tag, so a tag of up to 163 bytes is never cut. */
  lemma RenderLength(r: Record)
    requires 0 <= r.channel <= 256
    requires INT32_MIN <= r.vBusMv <= INT32_MAX && INT32_MIN <= r.iBusMa <= INT32_MAX
    requires INT32_MIN <= r.tempC <= INT32_MAX
    ensures |Render(r)| <= |CStr(r.tag)| + 92
    ensures |CStr(r.tag)| <= 163 ==> |Render(r)| <= MaxPayload
  {
    var t, c := CStr(r.tag), Unsigned(r.channel);
    var dv, di, dt := Decimal(r.vBusMv), Decimal(r.iBusMa), Decimal(r.tempC);
    assert |c| <= 3 by {
      assert Pow10(3) == 1000;
      assert r.channel % TWO_32 == r.channel;
      NatDigitsLength(r.channel, 3);
    }
    assert |dv| <= 11 && |di| <= 11 && |dt| <= 11 by {
      DecimalLength32(r.vBusMv);
      DecimalLength32(r.iBusMa);
      DecimalLength32(r.tempC);
    }
    assert |TagOpen| == 8 && |ChannelKey| == 12 && |VBusKey| == 12;
    assert |IBusKey| == 12 && |TempKey| == 11 && |Close| == 1;
    assert |Render(r)| == 56 + |t| + |c| + |dv| + |di| + |dt|;
  }

  /** `snprintk(buf, 256, ...)`: writes at most 255 bytes of the text and a NUL
      after them, leaves the rest of the buffer as it was, and returns the
      length the full text would have had. */
  function Snprintk(prior: Buffer, text: CString): (out: (Buffer, int))
    ensures out.1 == |text|
    ensures var k := Min(|text|, MaxPayload);
            out.0[..k] == text[..k] && out.0[k] == NUL && out.0[k + 1..] == prior[k + 1..]
  {
    var k := Min(|text|, MaxPayload);
    (text[..k] + [NUL] + prior[k + 1..], |text|)
  }

  /** The bytes the loop hands to the transport for a buffer and the code
      `snprintk` returned: nothing for a negative code; otherwise the code is
      clamped to 255 and that many bytes of the buffer are sent. */
  function Publishable(buf: Buffer, rc: int): (p: Option<CString>)
    ensures p.None? <==> rc < 0
    ensures p.Some? ==> |p.value| == Min(rc, MaxPayload) && |p.value| < BufSize && p.value <= buf
  {
    if rc < 0 then None
    else
      var len := if rc >= BufSize then BufSize - 1 else rc;
      Some(buf[..len])
  }

  /** The natural text cut to what fits the buffer. */
  function Truncate(text: CString): (t: CString)
    ensures t <= text && |t| == Min(|text|, MaxPayload)
  {
    text[..Min(|text|, MaxPayload)]
  }

  /** Truncation law: what is published is `min(natural length, 255)` bytes,
      a prefix of the natural text, whatever the buffer held before. */
  lemma TruncationLaw(prior: Buffer, text: CString)
    ensures Publishable(Snprintk(prior, text).0, Snprintk(prior, text).1) == Some(Truncate(text))
  {
  }
}
