/** The canonical JSON printer behind task fingerprints, a parser for what it
    prints, and the proof that the parser undoes the printer. */
module StableJson {
  import opened Text

  /** A decoded JSON value. A number is kept as the literal Go prints for it. */
  datatype Value =
    | Null
    | Bool(b: bool)
    | Num(literal: string)
    | Str(s: string)
    | Arr(items: seq<Value>)
    | Obj(members: map<string, Value>)

  predicate NumberChar(c: char) {
    '0' <= c <= '9' || c == '-' || c == '+' || c == '.' || c == 'e' || c == 'E'
  }

  /** What every JSON number literal satisfies. */
  predicate NumberLiteral(s: string) {
    s != "" && ('0' <= s[0] <= '9' || s[0] == '-') && forall i :: 0 <= i < |s| ==> NumberChar(s[i])
  }

  predicate WellFormed(v: Value) {
    match v
    case Num(literal) => NumberLiteral(literal)
    case Arr(items) => forall i :: 0 <= i < |items| ==> WellFormed(items[i])
    case Obj(members) => forall k :: k in members ==> WellFormed(members[k])
    case _ => true
  }

  // -------------------------------------------------------------- printer

  const HEX := "0123456789abcdef"

  function Unicode4(n: nat): (r: string)
    requires n < 0x10000
    ensures |r| == 6
  {
    ['\\', 'u', HEX[n / 4096], HEX[n / 256 % 16], HEX[n / 16 % 16], HEX[n % 16]]
  }

  /** encoding/json escapes the quote, the backslash, control characters, the
      three HTML characters and the two Unicode line separators. */
  function EscapeChar(c: char): string {
    var n := c as int;
    if c == '"' || c == '\\' then ['\\', c]
    else if c == '\n' then "\\n"
    else if c == '\r' then "\\r"
    else if c == '\t' then "\\t"
    else if n < 0x20 || c == '<' || c == '>' || c == '&' || n == 0x2028 || n == 0x2029 then Unicode4(n)
    else [c]
  }

  /** Characters that may stand in printed text: none below the space, and none
      that a browser or a line reader would take for markup or a line end. */
  predicate Plain(c: char) {
    c as int >= 0x20 && c != '<' && c != '>' && c != '&' && c as int != 0x2028 && c as int != 0x2029
  }

  lemma EscapeCharPlain(c: char)
    ensures forall i :: 0 <= i < |EscapeChar(c)| ==> Plain(EscapeChar(c)[i])
    ensures c == '"' ==> EscapeChar(c) == "\\\""
  {
    if |EscapeChar(c)| == 6 {
      forall i | 0 <= i < 16 ensures Plain(HEX[i]) {}
    }
  }

  /** Printed strings hold plain characters only. */
  lemma {:induction false} EscapePlain(s: string, i: nat)
    requires i < |Escape(s)|
    ensures Plain(Escape(s)[i])
  {
    EscapeCharPlain(s[0]);
    hide Plain, EscapeChar;
    if i >= |EscapeChar(s[0])| { EscapePlain(s[1..], i - |EscapeChar(s[0])|); }
  }

  function Escape(s: string): string {
    if s == "" then "" else EscapeChar(s[0]) + Escape(s[1..])
  }

  function PrintString(s: string): string {
    "\"" + Escape(s) + "\""
  }

  function Print(v: Value): string
    decreases v, 1
  {
    match v
    case Null => "null"
    case Bool(b) => if b then "true" else "false"
    case Num(literal) => literal
    case Str(s) => PrintString(s)
    case Arr(items) => "[" + PrintItems(v, 0) + "]"
    case Obj(members) => "{" + PrintMembers(v, SortedKeys(members.Keys)) + "}"
  }

  /** The items of an array from index `i` on, joined by commas. */
  function PrintItems(v: Value, i: nat): string
    requires v.Arr? && i <= |v.items|
    decreases v, 0, |v.items| - i
  {
    if i == |v.items| then ""
    else if i + 1 == |v.items| then Print(v.items[i])
    else Print(v.items[i]) + "," + PrintItems(v, i + 1)
  }

  /** The members of an object under the given keys, joined by commas. */
  function PrintMembers(v: Value, keys: seq<string>): string
    requires v.Obj? && forall k :: k in keys ==> k in v.members
    decreases v, 0, |keys|
  {
    if keys == [] then ""
    else
      var first := PrintString(keys[0]) + ":" + Print(v.members[keys[0]]);
      if |keys| == 1 then first else first + "," + PrintMembers(v, keys[1..])
  }

  // --------------------------------------------------------------- parser

  datatype Parsed<T> = Fail | Got(value: T, rest: string)

  function HexDigit(c: char): int {
    if '0' <= c <= '9' then c as int - '0' as int
    else if 'a' <= c <= 'f' then c as int - 'a' as int + 10
    else -1
  }

  /** The characters up to the closing quote. */
  function ParseChars(s: string): (r: Parsed<string>)
    ensures r.Got? ==> |r.rest| < |s|
  {
    if s == "" then Fail
    else if s[0] == '"' then Got("", s[1..])
    else if s[0] != '\\' then Push(s[0], ParseChars(s[1..]))
    else if |s| < 2 then Fail
    else if s[1] == 'n' then Push('\n', ParseChars(s[2..]))
    else if s[1] == 'r' then Push('\r', ParseChars(s[2..]))
    else if s[1] == 't' then Push('\t', ParseChars(s[2..]))
    else if s[1] != 'u' then Push(s[1], ParseChars(s[2..]))
    else if |s| < 6 || HexDigit(s[2]) < 0 || HexDigit(s[3]) < 0 || HexDigit(s[4]) < 0 || HexDigit(s[5]) < 0 then Fail
    else
      var n := HexDigit(s[2]) * 4096 + HexDigit(s[3]) * 256 + HexDigit(s[4]) * 16 + HexDigit(s[5]);
      if 0 <= n < 0xD800 then Push(n as char, ParseChars(s[6..])) else Fail
  }

  function Push(c: char, tail: Parsed<string>): Parsed<string> {
    if tail.Got? then Got([c] + tail.value, tail.rest) else Fail
  }

  function NumberPrefix(s: string): (r: nat)
    ensures r <= |s|
  {
    if s != "" && NumberChar(s[0]) then 1 + NumberPrefix(s[1..]) else 0
  }

  function Parse(s: string): (r: Parsed<Value>)
    ensures r.Got? ==> |r.rest| < |s|
    decreases |s|, 0
  {
    if s == "" then Fail
    else if s[0] == 'n' then if "null" <= s then Got(Null, s[4..]) else Fail
    else if s[0] == 't' then if "true" <= s then Got(Bool(true), s[4..]) else Fail
    else if s[0] == 'f' then if "false" <= s then Got(Bool(false), s[5..]) else Fail
    else if s[0] == '"' then
      var text := ParseChars(s[1..]);
      if text.Got? then Got(Str(text.value), text.rest) else Fail
    else if s[0] == '[' then
      if |s| > 1 && s[1] == ']' then Got(Arr([]), s[2..])
      else
        var items := ParseItems(s[1..]);
        if items.Got? then Got(Arr(items.value), items.rest) else Fail
    else if s[0] == '{' then
      if |s| > 1 && s[1] == '}' then Got(Obj(map[]), s[2..])
      else
        var members := ParseMembers(s[1..]);
        if members.Got? then Got(Obj(members.value), members.rest) else Fail
    else
      var n := NumberPrefix(s);
      if n > 0 then Got(Num(s[..n]), s[n..]) else Fail
  }

  /** One or more items and the closing bracket. */
  function ParseItems(s: string): (r: Parsed<seq<Value>>)
    ensures r.Got? ==> |r.rest| < |s|
    decreases |s|, 1
  {
    var first := Parse(s);
    if first.Fail? then Fail
    else if "]" <= first.rest then Got([first.value], first.rest[1..])
    else if "," <= first.rest then
      var more := ParseItems(first.rest[1..]);
      if more.Got? then Got([first.value] + more.value, more.rest) else Fail
    else Fail
  }

  /** One or more members and the closing brace. */
  function ParseMembers(s: string): (r: Parsed<map<string, Value>>)
    ensures r.Got? ==> |r.rest| < |s|
    decreases |s|, 1
  {
    if !("\"" <= s) then Fail
    else
      var key := ParseChars(s[1..]);
      if key.Fail? || !(":" <= key.rest) then Fail
      else
        var member := Parse(key.rest[1..]);
        if member.Fail? then Fail
        else if "}" <= member.rest then Got(map[key.value := member.value], member.rest[1..])
        else if "," <= member.rest then
          var more := ParseMembers(member.rest[1..]);
          if more.Got? then Got(map[key.value := member.value] + more.value, more.rest) else Fail
        else Fail
  }

  // ----------------------------------------------------------- round trip

  lemma HexRoundTrip(k: nat)
    requires k < 16
    ensures HexDigit(HEX[k]) == k
  {
  }

  lemma HexDecomposition(n: nat)
    requires n < 0x10000
    ensures n == n / 4096 * 4096 + n / 256 % 16 * 256 + n / 16 % 16 * 16 + n % 16
  {
    assert n / 256 / 16 == n / 4096 && n / 16 / 16 == n / 256;
  }

  lemma Unicode4Parses(c: char, tail: string)
    requires c as int < 0xD800
    ensures ParseChars(Unicode4(c as int) + tail) == Push(c, ParseChars(tail))
  {
    var n := c as int;
    var s := Unicode4(n) + tail;
    assert s[0] == '\\' && s[1] == 'u' && s[6..] == tail;
    HexRoundTrip(n / 4096);
    HexRoundTrip(n / 256 % 16);
    HexRoundTrip(n / 16 % 16);
    HexRoundTrip(n % 16);
    assert HexDigit(s[2]) == n / 4096 && HexDigit(s[3]) == n / 256 % 16;
    assert HexDigit(s[4]) == n / 16 % 16 && HexDigit(s[5]) == n % 16;
    HexDecomposition(n);
  }

  lemma EscapeCharParses(c: char, tail: string)
    ensures ParseChars(EscapeChar(c) + tail) == Push(c, ParseChars(tail))
  {
    var n := c as int;
    if EscapeChar(c) == [c] {
      assert ([c] + tail)[1..] == tail;
    } else if |EscapeChar(c)| == 2 {
      assert (EscapeChar(c) + tail)[2..] == tail;
    } else {
      Unicode4Parses(c, tail);
    }
  }

  /** An escaped text up to its closing quote parses back to the text. */
  lemma {:induction false} EscapeParses(s: string, tail: string)
    ensures ParseChars(Escape(s) + "\"" + tail) == Got(s, tail)
  {
    if s == "" {
      assert Escape(s) + "\"" + tail == "\"" + tail;
      assert ("\"" + tail)[1..] == tail;
    } else {
      var after := Escape(s[1..]) + "\"" + tail;
      EscapeParses(s[1..], tail);
      EscapeCharParses(s[0], after);
      assert Escape(s) + "\"" + tail == EscapeChar(s[0]) + after;
      assert s == [s[0]] + s[1..];
    }
  }

  lemma {:induction false} NumberPrefixExact(s: string, tail: string)
    requires forall i :: 0 <= i < |s| ==> NumberChar(s[i])
    requires tail == "" || !NumberChar(tail[0])
    ensures NumberPrefix(s + tail) == |s|
  {
    if s == "" {
      assert s + tail == tail;
    } else {
      NumberPrefixExact(s[1..], tail);
      assert (s + tail)[1..] == s[1..] + tail;
    }
  }

  predicate Delimited(tail: string) {
    tail == "" || !NumberChar(tail[0])
  }

  lemma ParseWord(v: Value, tail: string)
    requires v.Null? || v.Bool?
    ensures Parse(Print(v) + tail) == Got(v, tail)
  {
    var text, n := Print(v) + tail, |Print(v)|;
    assert text[0] == Print(v)[0] && text[..n] == Print(v) && text[n..] == tail;
  }

  lemma ParseNumber(literal: string, tail: string)
    requires NumberLiteral(literal) && Delimited(tail)
    ensures Parse(literal + tail) == Got(Num(literal), tail)
  {
    var text := literal + tail;
    NumberPrefixExact(literal, tail);
    assert text[|literal|..] == tail && text[..|literal|] == literal;
    assert text[0] == literal[0];
  }

  lemma ParseText(s: string, tail: string)
    ensures Parse(PrintString(s) + tail) == Got(Str(s), tail)
  {
    var text := PrintString(s) + tail;
    assert text[0] == '"' && text[1..] == Escape(s) + "\"" + tail;
    EscapeParses(s, tail);
  }

  /** How the parser takes the last and an earlier item of an array. */
  lemma LastItem(s: string, item: Value, tail: string)
    requires Parse(s) == Got(item, "]" + tail)
    ensures ParseItems(s) == Got([item], tail)
  {
    assert ("]" + tail)[1..] == tail;
  }

  lemma EarlierItem(s: string, item: Value, more: string, items: seq<Value>, tail: string)
    requires Parse(s) == Got(item, "," + more) && ParseItems(more) == Got(items, tail)
    ensures ParseItems(s) == Got([item] + items, tail)
  {
    assert ("," + more)[1..] == more;
    assert ("," + more)[0] == ',';
  }

  lemma ArrayOf(body: string, items: seq<Value>, tail: string)
    requires body != "" && body[0] != ']' && ParseItems(body) == Got(items, tail)
    ensures Parse("[" + body) == Got(Arr(items), tail)
  {
    assert ("[" + body)[1..] == body && ("[" + body)[0] == '[';
  }

  lemma ObjectOf(body: string, members: map<string, Value>, tail: string)
    requires body != "" && body[0] == '"' && ParseMembers(body) == Got(members, tail)
    ensures Parse("{" + body) == Got(Obj(members), tail)
  {
    assert ("{" + body)[1..] == body && ("{" + body)[0] == '{';
  }

  lemma EmptyContainers(tail: string)
    ensures Parse("[]" + tail) == Got(Arr([]), tail)
    ensures Parse("{}" + tail) == Got(Obj(map[]), tail)
  {
    var a, o := "[]" + tail, "{}" + tail;
    assert a[0] == '[' && a[1..][0] == ']' && a[2..] == tail;
    assert o[0] == '{' && o[1..][0] == '}' && o[2..] == tail;
  }

  /** How the parser takes one member: its key, its value, then a brace or a comma. */
  lemma LastMember(key: string, text: string, member: Value, tail: string)
    requires Parse(text) == Got(member, "}" + tail)
    ensures ParseMembers(PrintString(key) + ":" + text) == Got(map[key := member], tail)
  {
    MemberKey(key, text);
    assert ("}" + tail)[1..] == tail;
  }

  lemma EarlierMember(key: string, text: string, member: Value, more: string, members: map<string, Value>, tail: string)
    requires Parse(text) == Got(member, "," + more) && ParseMembers(more) == Got(members, tail)
    ensures ParseMembers(PrintString(key) + ":" + text) == Got(map[key := member] + members, tail)
  {
    MemberKey(key, text);
    assert ("," + more)[1..] == more;
    assert ("," + more)[0] == ',';
  }

  lemma MemberKey(key: string, text: string)
    ensures var s := PrintString(key) + ":" + text;
            s != "" && s[0] == '"' && ParseChars(s[1..]) == Got(key, ":" + text) && (":" + text)[1..] == text
  {
    assert (PrintString(key) + ":" + text)[1..] == Escape(key) + "\"" + (":" + text);
    EscapeParses(key, ":" + text);
  }

  lemma Closers(tail: string)
    ensures Delimited("]" + tail) && Delimited("}" + tail) && Delimited("," + tail)
  {
  }

  /** The parser undoes the printer on every JSON value, whatever follows. */
  lemma {:induction false} ParsePrint(v: Value, tail: string)
    requires WellFormed(v) && Delimited(tail)
    ensures Parse(Print(v) + tail) == Got(v, tail)
    decreases v, 1
  {
    if v.Arr? {
      ParsePrintArray(v, tail);
    } else if v.Obj? {
      ParsePrintObject(v, tail);
    } else if v.Num? {
      ParseNumber(v.literal, tail);
    } else if v.Str? {
      ParseText(v.s, tail);
    } else {
      ParseWord(v, tail);
    }
  }

  lemma {:induction false} ParsePrintArray(v: Value, tail: string)
    requires v.Arr? && WellFormed(v)
    ensures Parse(Print(v) + tail) == Got(v, tail)
    decreases v, 0, |v.items| + 1
  {
    if v.items == [] {
      EmptyContainers(tail);
      assert Print(v) == "[]";
    } else {
      var body := PrintItems(v, 0) + "]" + tail;
      ItemsFirst(v, tail);
      ParsePrintItems(v, 0, tail);
      assert v.items[0..] == v.items;
      ArrayOf(body, v.items, tail);
      assert Print(v) + tail == "[" + body;
    }
  }

  lemma MembersFirst(v: Value, keys: seq<string>)
    requires v.Obj? && keys != [] && forall k :: k in keys ==> k in v.members
    ensures "\"" <= PrintMembers(v, keys)
  {
    var first := PrintString(keys[0]) + ":" + Print(v.members[keys[0]]);
    assert first[0] == '"';
  }

  lemma SelectAll(m: map<string, Value>, keys: seq<string>)
    requires forall k :: k in keys <==> k in m
    ensures Select(m, keys) == m
  {
  }

  lemma NoMembers(v: Value)
    requires v.Obj?
    ensures PrintMembers(v, []) == ""
  {
  }

  lemma PrintObject(v: Value)
    requires v.Obj?
    ensures Print(v) == "{" + PrintMembers(v, SortedKeys(v.members.Keys)) + "}"
  {
    hide SortedKeys, PrintMembers;
  }

  lemma ObjectText(v: Value, tail: string)
    requires v.Obj?
    ensures var keys := SortedKeys(v.members.Keys);
            if keys == [] then v == Obj(map[]) && Print(v) + tail == "{}" + tail
            else Print(v) + tail == "{" + (PrintMembers(v, keys) + "}" + tail)
  {
    hide *;
    var keys := SortedKeys(v.members.Keys);
    var inner := PrintMembers(v, keys);
    PrintObject(v);
    NoMembers(v);
    assert "{" + inner + "}" + tail == "{" + (inner + "}" + tail);
    if keys == [] {
      assert v.members == map[];
    }
  }

  lemma {:induction false} ParsePrintObject(v: Value, tail: string)
    requires v.Obj? && WellFormed(v)
    ensures Parse(Print(v) + tail) == Got(v, tail)
    decreases v, 0, |SortedKeys(v.members.Keys)| + 1
  {
    hide *;
    var keys := SortedKeys(v.members.Keys);
    ObjectText(v, tail);
    if keys == [] {
      EmptyContainers(tail);
    } else {
      MembersFirst(v, keys);
      SelectAll(v.members, keys);
      ParsePrintMembers(v, keys, tail);
      ObjectOf(PrintMembers(v, keys) + "}" + tail, v.members, tail);
    }
  }

  /** No printed value starts like the end of an array. */
  lemma ItemsFirst(v: Value, tail: string)
    requires v.Arr? && v.items != [] && WellFormed(v)
    ensures var s := PrintItems(v, 0) + "]" + tail; s != "" && s[0] != ']'
  {
    var head := Print(v.items[0]);
    assert WellFormed(v.items[0]);
    assert head != "" && head[0] != ']';
    assert head <= PrintItems(v, 0);
  }

  lemma ItemsText(v: Value, i: nat, tail: string)
    requires v.Arr? && i < |v.items|
    ensures i + 1 == |v.items| ==> PrintItems(v, i) + "]" + tail == Print(v.items[i]) + ("]" + tail)
    ensures i + 1 < |v.items| ==>
              PrintItems(v, i) + "]" + tail == Print(v.items[i]) + ("," + (PrintItems(v, i + 1) + "]" + tail))
  {
  }

  lemma ItemWellFormed(v: Value, i: nat)
    requires v.Arr? && WellFormed(v) && i < |v.items|
    ensures WellFormed(v.items[i])
  {
  }

  lemma {:induction false} ParsePrintItems(v: Value, i: nat, tail: string)
    requires v.Arr? && WellFormed(v) && i < |v.items|
    ensures ParseItems(PrintItems(v, i) + "]" + tail) == Got(v.items[i..], tail)
    decreases v, 0, |v.items| - i
  {
    hide *;
    var item := v.items[i];
    ItemWellFormed(v, i);
    ItemsText(v, i, tail);
    if i + 1 == |v.items| {
      Closers(tail);
      ParsePrint(item, "]" + tail);
      LastItem(Print(item) + ("]" + tail), item, tail);
      assert v.items[i..] == [item];
    } else {
      var more := PrintItems(v, i + 1) + "]" + tail;
      ParsePrintItems(v, i + 1, tail);
      Closers(more);
      ParsePrint(item, "," + more);
      EarlierItem(Print(item) + ("," + more), item, more, v.items[i + 1..], tail);
      assert v.items[i..] == [item] + v.items[i + 1..];
    }
  }

  function Select(m: map<string, Value>, keys: seq<string>): map<string, Value>
    requires forall k :: k in keys ==> k in m
  {
    map k | k in keys :: m[k]
  }

  lemma MembersText(v: Value, keys: seq<string>, tail: string)
    requires v.Obj? && keys != [] && forall k :: k in keys ==> k in v.members
    ensures var entry := PrintString(keys[0]) + ":"; var member := Print(v.members[keys[0]]);
            if |keys| == 1
            then PrintMembers(v, keys) + "}" + tail == entry + (member + ("}" + tail))
            else PrintMembers(v, keys) + "}" + tail == entry + (member + ("," + (PrintMembers(v, keys[1..]) + "}" + tail)))
  {
    var entry, member := PrintString(keys[0]) + ":", Print(v.members[keys[0]]);
    if |keys| == 1 {
      assert PrintMembers(v, keys) == entry + member;
    } else {
      var more := PrintMembers(v, keys[1..]);
      assert PrintMembers(v, keys) == entry + member + "," + more;
      Regroup(entry, member, ",", more, "}", tail);
    }
  }

  lemma Regroup(a: string, b: string, c: string, d: string, e: string, f: string)
    ensures a + b + c + d + e + f == a + (b + (c + (d + e + f)))
  {
  }

  lemma {:induction false} ParsePrintMembers(v: Value, keys: seq<string>, tail: string)
    requires v.Obj? && WellFormed(v) && keys != []
    requires forall k :: k in keys ==> k in v.members
    ensures ParseMembers(PrintMembers(v, keys) + "}" + tail) == Got(Select(v.members, keys), tail)
    decreases v, 0, |keys|
  {
    var key := keys[0];
    var member := v.members[key];
    assert WellFormed(member);
    hide *;
    MembersText(v, keys, tail);
    SelectSplit(v.members, keys);
    if |keys| == 1 {
      Closers(tail);
      ParsePrint(member, "}" + tail);
      LastMember(key, Print(member) + ("}" + tail), member, tail);
    } else {
      var more := PrintMembers(v, keys[1..]) + "}" + tail;
      ParsePrintMembers(v, keys[1..], tail);
      Closers(more);
      ParsePrint(member, "," + more);
      EarlierMember(key, Print(member) + ("," + more), member, more, Select(v.members, keys[1..]), tail);
    }
  }

  lemma SelectSplit(m: map<string, Value>, keys: seq<string>)
    requires keys != [] && forall k :: k in keys ==> k in m
    ensures Select(m, keys) == map[keys[0] := m[keys[0]]] + Select(m, keys[1..])
    ensures |keys| == 1 ==> Select(m, keys) == map[keys[0] := m[keys[0]]]
  {
    assert keys == [keys[0]] + keys[1..];
  }

  /** Two values print the same exactly when they are the same value. */
  lemma PrintInjective(v: Value, w: Value)
    requires WellFormed(v) && WellFormed(w)
    ensures Print(v) == Print(w) <==> v == w
  {
    ParsePrint(v, "");
    ParsePrint(w, "");
    assert Print(v) + "" == Print(v) && Print(w) + "" == Print(w);
  }

  // --------------------------------------------------------- fingerprints

  /** The five envelope fields that identify a task's work. */
  datatype TaskWork = TaskWork(agentId: string, runId: string, stepId: string, key: string, payload: map<string, Value>)

  function WorkValue(w: TaskWork): Value {
    Obj(map[
      "agentId" := Str(w.agentId), "executionRunId" := Str(w.runId), "executionStepId" := Str(w.stepId),
      "idempotencyKey" := Str(w.key), "payload" := Obj(w.payload)])
  }

  ghost predicate CollisionFree(hash: string -> string) {
    forall a, b :: hash(a) == hash(b) ==> a == b
  }

  function Fingerprint(hash: string -> string, w: TaskWork): string {
    hash(Print(WorkValue(w)))
  }

  lemma WorkValueWellFormed(w: TaskWork)
    requires WellFormed(Obj(w.payload))
    ensures WellFormed(WorkValue(w))
  {
    var m := WorkValue(w).members;
    forall k | k in m ensures WellFormed(m[k]) {
      assert m[k].Str? || m[k] == Obj(w.payload);
    }
  }

  lemma WorkValueInjective(v: TaskWork, w: TaskWork)
    requires WorkValue(v) == WorkValue(w)
    ensures v == w
  {
    var m, n := WorkValue(v).members, WorkValue(w).members;
    assert m["agentId"] == n["agentId"] && m["executionRunId"] == n["executionRunId"];
    assert m["executionStepId"] == n["executionStepId"] && m["idempotencyKey"] == n["idempotencyKey"];
    assert m["payload"] == n["payload"];
  }

  /** Under a collision-free hash a fingerprint identifies the work exactly. */
  lemma FingerprintExact(hash: string -> string, v: TaskWork, w: TaskWork)
    requires CollisionFree(hash)
    requires WellFormed(Obj(v.payload)) && WellFormed(Obj(w.payload))
    ensures Fingerprint(hash, v) == Fingerprint(hash, w) <==> v == w
  {
    WorkValueWellFormed(v);
    WorkValueWellFormed(w);
    PrintInjective(WorkValue(v), WorkValue(w));
    if WorkValue(v) == WorkValue(w) { WorkValueInjective(v, w); }
  }

  /** The loop that joins printed parts. */
  method StringsJoin(items: seq<string>, sep: string) returns (result: string)
    ensures result == Join(items, sep)
  {
    if |items| == 0 { return ""; }
    result := items[0];
    assert items[..1] == [items[0]];
    for index := 1 to |items|
      invariant result == Join(items[..index], sep)
    {
      JoinSnoc(items[..index], items[index], sep);
      assert items[..index + 1] == items[..index] + [items[index]];
      result := result + sep + items[index];
    }
    assert items[..|items|] == items;
  }

  lemma {:induction false} JoinSnoc(parts: seq<string>, last: string, sep: string)
    requires parts != []
    ensures Join(parts + [last], sep) == Join(parts, sep) + sep + last
  {
    if |parts| > 1 {
      JoinSnoc(parts[1..], last, sep);
      assert (parts + [last])[1..] == parts[1..] + [last];
    } else {
      assert (parts + [last])[1..] == [last];
    }
  }

  // ------------------------------------------------- the printed form

  function ItemTexts(v: Value, i: nat): seq<string>
    requires v.Arr? && i <= |v.items|
  {
    seq(|v.items| - i, j requires 0 <= j < |v.items| - i => Print(v.items[i + j]))
  }

  function MemberTexts(v: Value, keys: seq<string>): seq<string>
    requires v.Obj? && forall k :: k in keys ==> k in v.members
  {
    seq(|keys|, j requires 0 <= j < |keys| => "\"" + Escape(keys[j]) + "\":" + Print(v.members[keys[j]]))
  }

  lemma {:induction false} ItemsJoined(v: Value, i: nat)
    requires v.Arr? && i <= |v.items|
    ensures PrintItems(v, i) == Join(ItemTexts(v, i), ",")
    decreases |v.items| - i
  {
    hide Print;
    var texts := ItemTexts(v, i);
    if i < |v.items| {
      ItemsJoined(v, i + 1);
      assert texts[1..] == ItemTexts(v, i + 1);
    }
  }

  lemma {:induction false} MembersJoined(v: Value, keys: seq<string>)
    requires v.Obj? && forall k :: k in keys ==> k in v.members
    ensures PrintMembers(v, keys) == Join(MemberTexts(v, keys), ",")
    decreases |keys|
  {
    hide Print, Escape;
    var texts := MemberTexts(v, keys);
    if keys != [] {
      MembersJoined(v, keys[1..]);
      assert texts[1..] == MemberTexts(v, keys[1..]);
    }
  }

  /** The printed form: words and literals as they are, strings in quotes, and the
      texts of items, or of members in the order of their keys, between commas. */
  lemma PrintExact(v: Value)
    ensures v.Null? ==> Print(v) == "null"
    ensures v.Bool? ==> Print(v) == if v.b then "true" else "false"
    ensures v.Num? ==> Print(v) == v.literal
    ensures v.Str? ==> Print(v) == "\"" + Escape(v.s) + "\""
    ensures v.Arr? ==> Print(v) == "[" + Join(ItemTexts(v, 0), ",") + "]"
    ensures v.Obj? ==> Print(v) == "{" + Join(MemberTexts(v, SortedKeys(v.members.Keys)), ",") + "}"
  {
    hide Escape, SortedKeys;
    if v.Arr? { ItemsJoined(v, 0); }
    if v.Obj? { MembersJoined(v, SortedKeys(v.members.Keys)); }
  }

  /** The fingerprinted text names each of the five fields. */
  lemma WorkFields(w: TaskWork)
    ensures var m := WorkValue(w).members;
            && m.Keys == {"agentId", "executionRunId", "executionStepId", "idempotencyKey", "payload"}
            && m["agentId"] == Str(w.agentId) && m["executionRunId"] == Str(w.runId) && m["executionStepId"] == Str(w.stepId)
            && m["idempotencyKey"] == Str(w.key) && m["payload"] == Obj(w.payload)
  {
  }
}
