/** Writing a key alias into a PKCS#12 store: the attribute rewrite on the
    decoded tree and the new integrity MAC. DER encoding, SHA-1 and HMAC are
    arbitrary functions. */
module Pkcs12Alias {
  import opened Wrappers
  import opened Pkcs12Kdf

  const DATA := "1.2.840.113549.1.7.1"
  const KEY_BAG := "1.2.840.113549.1.12.10.1.2"
  const FRIENDLY_NAME := "1.2.840.113549.1.9.20"
  const SHA1 := "1.3.14.3.2.26"

  datatype Attribute = Attribute(id: string, value: Bytes)
  datatype Bag = Bag(id: string, value: Bytes, attributes: seq<Attribute>)

  /** A content info whose type is the data type decodes to bags or not at all;
      any other is kept as it is. */
  datatype Content = Bags(bags: seq<Bag>) | Undecodable | Opaque(contentType: string, raw: Bytes)
  datatype Mac = Mac(algorithm: string, digest: Bytes, salt: Bytes, iterations: int)
  datatype Pfx = Pfx(version: int, contentType: string, safe: seq<Content>, mac: Mac)

  datatype Codec = Codec(
    sha1: Bytes -> Digest,
    hmac: (Bytes, Bytes) -> Bytes,
    derSafe: seq<Content> -> Bytes,
    derName: Bytes -> Bytes)

  // ---------------------------------------------------------- BMP strings

  predicate BmpChar(c: char) {
    c != '\0' && c as int <= 0xffff
  }

  predicate BmpText(s: string) {
    forall i :: 0 <= i < |s| ==> BmpChar(s[i])
  }

  /** Two bytes a unit, high byte first. */
  function BmpBytes(units: seq<int>): (r: Bytes)
    requires forall i :: 0 <= i < |units| ==> 0 <= units[i] <= 0xffff
    ensures |r| == 2 * |units|
  {
    seq(2 * |units|, k requires 0 <= k < 2 * |units| => if k % 2 == 0 then units[k / 2] / 256 else units[k / 2] % 256)
  }

  /** The code units of a text in the basic plane, with an optional terminator. */
  function Units(s: string, terminated: bool): (r: seq<int>)
    requires BmpText(s)
    ensures forall i :: 0 <= i < |r| ==> 0 <= r[i] <= 0xffff
  {
    seq(|s|, i requires 0 <= i < |s| => s[i] as int) + (if terminated then [0] else [])
  }

  function Bmp(s: string, terminated: bool): Bytes
    requires BmpText(s)
  {
    BmpBytes(Units(s, terminated))
  }

  /** The encoding byte by byte: each character high byte first, then two zero
      bytes where a terminator is asked for. */
  lemma BmpExact(s: string, terminated: bool)
    requires BmpText(s)
    ensures |Bmp(s, terminated)| == 2 * |s| + if terminated then 2 else 0
    ensures forall i :: 0 <= i < |s| ==> (Bmp(s, terminated)[2 * i] as int) * 256 + Bmp(s, terminated)[2 * i + 1] == s[i] as int
    ensures terminated ==> Bmp(s, terminated)[2 * |s|] == 0 && Bmp(s, terminated)[2 * |s| + 1] == 0
  {
    var units := Units(s, terminated);
    forall i | 0 <= i < |units| ensures (BmpBytes(units)[2 * i] as int) * 256 + BmpBytes(units)[2 * i + 1] == units[i] {
      assert BmpBytes(units)[2 * i] == units[i] / 256;
    }
  }

  /** Two texts have the same encoding only if they are the same text. */
  lemma BmpInjective(s: string, t: string, terminated: bool)
    requires BmpText(s) && BmpText(t) && Bmp(s, terminated) == Bmp(t, terminated)
    ensures s == t
  {
    var a, b := Units(s, terminated), Units(t, terminated);
    assert |a| == |b|;
    forall i | 0 <= i < |s| ensures s[i] == t[i] {
      assert BmpBytes(a)[2 * i] == BmpBytes(b)[2 * i] && BmpBytes(a)[2 * i + 1] == BmpBytes(b)[2 * i + 1];
      assert a[i] / 256 == b[i] / 256 && a[i] % 256 == b[i] % 256;
    }
  }

  /** linuxPKCS12BMPString: a character outside the basic plane would need
      surrogates and is refused, as is NUL. */
  method BmpString(value: string, terminated: bool) returns (r: Result<Bytes>)
    ensures r.Ok? <==> BmpText(value)
    ensures r.Ok? ==> r.value == Bmp(value, terminated)
  {
    for index := 0 to |value|
      invariant BmpText(value[..index])
    {
      if !BmpChar(value[index]) { return Err("invalid BMP string"); }
    }
    assert value[..|value|] == value;
    var units := Units(value, terminated);
    var output := new Byte[|units| * 2];
    for index := 0 to |units|
      invariant forall k :: 0 <= k < 2 * index ==> output[k] == BmpBytes(units)[k]
    {
      output[index * 2] := units[index] / 256;
      output[index * 2 + 1] := units[index] % 256;
    }
    assert output[..] == BmpBytes(units);
    r := Ok(output[..]);
  }

  // ------------------------------------------------- what the rewrite means

  function Others(attributes: seq<Attribute>): seq<Attribute> {
    if attributes == [] then []
    else
      var last := attributes[|attributes| - 1];
      Others(attributes[..|attributes| - 1]) + (if last.id == FRIENDLY_NAME then [] else [last])
  }

  function SetBag(bag: Bag, name: Attribute): Bag {
    if bag.id == KEY_BAG then bag.(attributes := Others(bag.attributes) + [name]) else bag
  }

  function SetContent(c: Content, name: Attribute): Content {
    if c.Bags? then Bags(seq(|c.bags|, i requires 0 <= i < |c.bags| => SetBag(c.bags[i], name))) else c
  }

  function SetSafe(safe: seq<Content>, name: Attribute): seq<Content> {
    seq(|safe|, i requires 0 <= i < |safe| => SetContent(safe[i], name))
  }

  predicate HasKeyBag(c: Content) {
    c.Bags? && exists i :: 0 <= i < |c.bags| && c.bags[i].id == KEY_BAG
  }

  /** How many friendlyName attributes a bag carries. */
  function NameCount(attributes: seq<Attribute>): nat {
    if attributes == [] then 0
    else NameCount(attributes[..|attributes| - 1]) + (if attributes[|attributes| - 1].id == FRIENDLY_NAME then 1 else 0)
  }

  lemma {:induction false} OthersAppend(a: seq<Attribute>, b: seq<Attribute>)
    ensures Others(a + b) == Others(a) + Others(b)
  {
    if b == [] {
      assert a + b == a;
    } else {
      var n := |b| - 1;
      OthersAppend(a, b[..n]);
      assert (a + b)[..|a| + n] == a + b[..n];
    }
  }

  /** What the filter does: names go, everything else stays, in its order. */
  lemma OthersExact(a: seq<Attribute>, x: Attribute, b: seq<Attribute>)
    ensures Others([]) == []
    ensures Others(a + [x] + b) == Others(a) + (if x.id == FRIENDLY_NAME then [] else [x]) + Others(b)
  {
    OthersAppend(a + [x], b);
    OthersAppend(a, [x]);
    assert [x][..0] == [];
  }

  lemma {:induction false} OthersHasNoName(attributes: seq<Attribute>)
    ensures NameCount(Others(attributes)) == 0 && Others(Others(attributes)) == Others(attributes)
  {
    if attributes != [] {
      var front, last := attributes[..|attributes| - 1], attributes[|attributes| - 1];
      OthersHasNoName(front);
      if last.id == FRIENDLY_NAME {
        assert Others(attributes) == Others(front);
      } else {
        assert Others(attributes)[..|Others(front)|] == Others(front);
      }
    }
  }

  lemma OthersOfNamed(attributes: seq<Attribute>, name: Attribute)
    requires name.id == FRIENDLY_NAME
    ensures Others(attributes + [name]) == Others(attributes)
    ensures NameCount(attributes + [name]) == NameCount(attributes) + 1
  {
    assert (attributes + [name])[..|attributes|] == attributes;
  }

  /** A key bag ends up with exactly one name, the given one, after its other
      attributes in their old order; its id and value, and every other bag, stay. */
  lemma BagKept(bag: Bag, name: Attribute)
    requires name.id == FRIENDLY_NAME
    ensures var b := SetBag(bag, name);
            && b.id == bag.id && b.value == bag.value
            && (bag.id != KEY_BAG ==> b == bag)
            && Others(b.attributes) == Others(bag.attributes)
            && (bag.id == KEY_BAG ==> NameCount(b.attributes) == 1 && b.attributes[|b.attributes| - 1] == name)
  {
    OthersHasNoName(bag.attributes);
    OthersOfNamed(Others(bag.attributes), name);
  }

  /** The whole store keeps its shape: contents that are not bags are untouched
      and every bag is kept in place in the sense of BagKept. */
  lemma SafeKept(safe: seq<Content>, name: Attribute, i: nat, j: nat)
    requires name.id == FRIENDLY_NAME && i < |safe|
    ensures var c, d := safe[i], SetSafe(safe, name)[i];
            && |SetSafe(safe, name)| == |safe|
            && (!c.Bags? ==> d == c)
            && (c.Bags? ==> d.Bags? && |d.bags| == |c.bags|)
            && (c.Bags? && j < |c.bags| ==>
                  && d.bags[j].id == c.bags[j].id && d.bags[j].value == c.bags[j].value
                  && Others(d.bags[j].attributes) == Others(c.bags[j].attributes)
                  && if c.bags[j].id == KEY_BAG then NameCount(d.bags[j].attributes) == 1 && name in d.bags[j].attributes
                     else d.bags[j] == c.bags[j])
  {
    if safe[i].Bags? && j < |safe[i].bags| {
      BagKept(safe[i].bags[j], name);
      var b := SetSafe(safe, name)[i].bags[j];
      assert b == SetBag(safe[i].bags[j], name);
      if b.id == KEY_BAG { assert b.attributes[|b.attributes| - 1] == name; }
    }
  }

  /** Setting one alias and then another is setting the other. */
  lemma SetTwice(safe: seq<Content>, a: Attribute, b: Attribute)
    requires a.id == FRIENDLY_NAME && b.id == FRIENDLY_NAME
    ensures SetSafe(SetSafe(safe, a), b) == SetSafe(safe, b)
  {
    forall i | 0 <= i < |safe| ensures SetContent(SetContent(safe[i], a), b) == SetContent(safe[i], b) {
      if safe[i].Bags? {
        var bags := safe[i].bags;
        forall j | 0 <= j < |bags| ensures SetBag(SetBag(bags[j], a), b) == SetBag(bags[j], b) {
          BagKept(bags[j], a);
        }
      }
    }
  }

  function Rounds(mac: Mac): int {
    if mac.iterations < 1 then 1 else mac.iterations
  }

  /** The MAC of RFC 7292 section 4: HMAC over the encoded safe with a key
      derived from the password under identifier 3. */
  ghost predicate MacVerifies(codec: Codec, pfx: Pfx, password: string) {
    && BmpText(password)
    && exists inputs, key ::
         && Derives(codec.sha1, pfx.mac.salt, Bmp(password, true), Rounds(pfx.mac), 3, 20, inputs, key)
         && pfx.mac.digest == codec.hmac(key, codec.derSafe(pfx.safe))
  }

  // ------------------------------------------------------------- the code

  /** The attribute filter in place: entries are kept by writing them at or
      before the one just read, so no unread entry is ever overwritten. */
  method CompactAttributes(a: array<Attribute>) returns (kept: nat)
    modifies a
    ensures kept <= a.Length && a[..kept] == Others(old(a[..]))
  {
    kept := 0;
    for read := 0 to a.Length
      invariant kept <= read
      invariant a[..kept] == Others(old(a[..])[..read])
      invariant a[read..] == old(a[..])[read..]
    {
      var attribute := a[read];
      assert attribute == a[read..][0] == old(a[..])[read];
      assert old(a[..])[..read + 1][..read] == old(a[..])[..read];
      ghost var unread := a[read..][1..];
      assert a[read + 1..] == unread;
      if attribute.id != FRIENDLY_NAME {
        ghost var done := a[..kept];
        a[kept] := attribute;
        kept := kept + 1;
        assert a[..kept] == done + [attribute];
        assert a[read + 1..] == unread;
      }
    }
    assert old(a[..])[..a.Length] == old(a[..]);
  }

  /** One key bag: its attributes compacted in their own backing array, then the
      name appended. */
  method RewriteKeyBag(bag: Bag, name: Attribute) returns (r: Bag)
    requires bag.id == KEY_BAG
    ensures r == SetBag(bag, name)
  {
    var backing := new Attribute[|bag.attributes|](i requires 0 <= i < |bag.attributes| => bag.attributes[i]);
    assert backing[..] == bag.attributes;
    var kept := CompactAttributes(backing);
    r := bag.(attributes := backing[..kept] + [name]);
  }

  /** The bags of one content, rewritten in place. */
  method RewriteBags(bags: array<Bag>, name: Attribute) returns (found: bool)
    modifies bags
    ensures bags[..] == SetContent(Bags(old(bags[..])), name).bags
    ensures found <==> HasKeyBag(Bags(old(bags[..])))
  {
    found := false;
    ghost var was := bags[..];
    for index := 0 to bags.Length
      invariant forall i :: 0 <= i < index ==> bags[i] == SetBag(was[i], name)
      invariant forall i :: index <= i < bags.Length ==> bags[i] == was[i]
      invariant found <==> exists i :: 0 <= i < index && was[i].id == KEY_BAG
    {
      if bags[index].id == KEY_BAG {
        bags[index] := RewriteKeyBag(bags[index], name);
        found := true;
      }
    }
    assert bags[..] == SetContent(Bags(was), name).bags;
  }

  /** All contents in place; a data content that does not decode is an error. */
  method RewriteSafe(safe: array<Content>, name: Attribute) returns (ok: bool, found: bool)
    modifies safe
    ensures ok <==> forall i :: 0 <= i < safe.Length ==> !old(safe[..])[i].Undecodable?
    ensures ok ==> safe[..] == SetSafe(old(safe[..]), name)
    ensures ok ==> (found <==> exists i :: 0 <= i < safe.Length && HasKeyBag(old(safe[..])[i]))
  {
    ok, found := true, false;
    ghost var was := safe[..];
    for index := 0 to safe.Length
      invariant forall i :: 0 <= i < index ==> !was[i].Undecodable? && safe[i] == SetContent(was[i], name)
      invariant forall i :: index <= i < safe.Length ==> safe[i] == was[i]
      invariant found <==> exists i :: 0 <= i < index && HasKeyBag(was[i])
    {
      if safe[index].Opaque? { continue; }
      if safe[index].Undecodable? {
        ok := false;
        assert was[index].Undecodable?;
        return;
      }
      var bags := safe[index].bags;
      var decoded := new Bag[|bags|](i requires 0 <= i < |bags| => bags[i]);
      assert decoded[..] == bags;
      var here := RewriteBags(decoded, name);
      found := found || here;
      // Until a key bag has been seen the content is left as it was, which is
      // the same tree.
      if found {
        safe[index] := Bags(decoded[..]);
      } else {
        NoKeyNoChange(was[index], name);
      }
    }
    assert safe[..] == SetSafe(was, name);
  }

  lemma NoKeyNoChange(c: Content, name: Attribute)
    requires !HasKeyBag(c)
    ensures SetContent(c, name) == c
  {
    if c.Bags? {
      assert SetContent(c, name).bags == c.bags;
    }
  }

  predicate Acceptable(pfx: Pfx, password: string, alias: string) {
    && pfx.version == 3 && pfx.contentType == DATA
    && (forall i :: 0 <= i < |pfx.safe| ==> !pfx.safe[i].Undecodable?)
    && (exists i :: 0 <= i < |pfx.safe| && HasKeyBag(pfx.safe[i]))
    && BmpText(alias) && BmpText(password) && pfx.mac.algorithm == SHA1
  }

  function FriendlyName(codec: Codec, alias: string): Attribute
    requires BmpText(alias)
  {
    Attribute(FRIENDLY_NAME, codec.derName(Bmp(alias, false)))
  }

  /** setLinuxPKCS12KeyAlias succeeds exactly on acceptable inputs, rewrites the
      safe and nothing else but the digest, and the new MAC verifies. */
  method SetKeyAlias(codec: Codec, pfx: Pfx, password: string, alias: string) returns (r: Result<Pfx>)
    ensures r.Ok? <==> Acceptable(pfx, password, alias)
    ensures r.Ok? ==> r.value == pfx.(safe := SetSafe(pfx.safe, FriendlyName(codec, alias)), mac := pfx.mac.(digest := r.value.mac.digest))
    ensures r.Ok? ==> MacVerifies(codec, r.value, password)
    ensures r.Ok? ==> r.value.safe == SetSafe(pfx.safe, Attribute("1.2.840.113549.1.9.20", codec.derName(Bmp(alias, false))))
  {
    if pfx.version != 3 || pfx.contentType != DATA { return Err("invalid PKCS12"); }
    var bmp := BmpString(alias, false);
    if bmp.Err? { return Err(bmp.reason); }
    var name := Attribute(FRIENDLY_NAME, codec.derName(bmp.value));
    var contents := pfx.safe;
    var safe := new Content[|contents|](i requires 0 <= i < |contents| => contents[i]);
    assert safe[..] == contents;
    var ok, found := RewriteSafe(safe, name);
    if !ok { return Err("invalid private key safe"); }
    if !found { return Err("PKCS12 private key bag not found"); }
    var encoded := BmpString(password, true);
    if encoded.Err? { return Err(encoded.reason); }
    if pfx.mac.algorithm != SHA1 { return Err("unsupported PKCS12 MAC"); }
    var iterations := pfx.mac.iterations;
    if iterations < 1 { iterations := 1; }
    var key, inputs := DeriveSha1(codec.sha1, pfx.mac.salt, encoded.value, iterations, 3, 20);
    var digest := codec.hmac(key, codec.derSafe(safe[..]));
    var mac := pfx.mac.(digest := digest);
    assert Derives(codec.sha1, mac.salt, Bmp(password, true), Rounds(mac), 3, 20, inputs, key);
    r := Ok(pfx.(safe := safe[..], mac := mac));
  }
}
